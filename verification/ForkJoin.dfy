/** The fork-join program that the tree records, and the proof that the tree records it
    faithfully.  What a task knows, whom it waits for and what happened before a step say
    nothing of trees: each task carries the set of steps it knows to have finished, spawning
    hands that knowledge to the child, and waiting collects the knowledge of every task
    spawned, directly or not, since the last wait.  Beside them the state keeps the tree and
    where each task stands in it; `Program.GuardsAgree` shows that the program's guards do
    not depend on those.  Events are split into five primitives, each of which adds at most
    one node. */
module ForkJoin {
  import opened Dpst
  import opened Capture
  import opened Ahead

  /** A task of the program.  `now` holds its current step, if it has one; `team` the tasks
      spawned, directly or not, since its last wait. */
  datatype Task = Task(known: set<nat>, now: set<nat>, team: set<nat>, blocked: bool, done: bool)

  /** Where a task stands in the tree: its base node, its open implicit FINISH and the
      FINISH of the root task it is blocked on (0 for none). */
  datatype Place = Place(base: nat, fin: nat, root: nat)

  datatype State = State(tree: Tree, tasks: map<nat, Task>, past: map<nat, set<nat>>, places: map<nat, Place>)

  function All(k: Task): set<nat> {
    k.known + k.now
  }

  function OwnerOf(p: Place): nat {
    if p.fin != 0 then p.fin else p.base
  }

  function ScopeOf(p: Place): nat {
    if p.fin != 0 then p.fin else p.root
  }

  predicate Under(t: Tree, r: nat, x: nat)
    requires Rooted(t) && IsNode(t, x)
  {
    r != 0 && IsAncestor(t, r, x)
  }

  // ---------------------------------------------------------------- primitives

  /** A new task `c` is added to the team of its spawner and of everyone whose team that is in. */
  function JoinTeams(tasks: map<nat, Task>, u: nat, c: nat): map<nat, Task> {
    map t | t in tasks :: if t == u || u in tasks[t].team then tasks[t].(team := tasks[t].team + {c}) else tasks[t]
  }

  predicate CanAct(s: State, u: nat) {
    && u in s.tasks && u in s.places && !s.tasks[u].done && !s.tasks[u].blocked
    && StructuralNode(s.tree, OwnerOf(s.places[u]))
  }

  /** `u` opens an implicit FINISH. */
  function OpenFin(s: State, u: nat): State
    requires CanAct(s, u) && s.places[u].fin == 0
  {
    s.(tree := AddChild(s.tree, OwnerOf(s.places[u]), Finish, u, false),
       places := s.places[u := s.places[u].(fin := |s.tree|)])
  }

  /** `u` creates task `c`: an ASYNC, or the FINISH of a root task that blocks `u`. */
  function NewTask(s: State, u: nat, c: nat, root: bool): State
    requires CanAct(s, u)
  {
    var tasks := JoinTeams(s.tasks, u, c);
    State(AddChild(s.tree, OwnerOf(s.places[u]), if root then Finish else Async, c, root),
          tasks[u := tasks[u].(blocked := root)][c := Task(All(s.tasks[u]), {}, {}, false, false)],
          s.past,
          s.places[u := s.places[u].(root := if root then |s.tree| else 0)][c := Place(|s.tree|, 0, 0)])
  }

  /** `u` begins a new step: it knows everything it knew, and the step it leaves. */
  function FreshStep(s: State, u: nat): State
    requires CanAct(s, u)
  {
    var n, all := |s.tree|, All(s.tasks[u]);
    s.(tree := AddChild(s.tree, OwnerOf(s.places[u]), Step, u, false),
       tasks := s.tasks[u := s.tasks[u].(known := all, now := {n})],
       past := s.past[n := all])
  }

  ghost function TeamKnowledge(s: State, u: nat): set<nat>
    requires u in s.tasks
  {
    set d, x | d in s.tasks[u].team && d in s.tasks && x in All(s.tasks[d]) :: x
  }

  /** `u` has waited for its team: it learns all they know, and its scope closes. */
  ghost function Join(s: State, u: nat): State
    requires u in s.tasks && u in s.places
  {
    s.(tasks := s.tasks[u := s.tasks[u].(known := s.tasks[u].known + TeamKnowledge(s, u), team := {}, blocked := false)],
       places := s.places[u := s.places[u].(fin := 0, root := 0)])
  }

  function Finished(s: State, u: nat): State
    requires u in s.tasks
  {
    s.(tasks := s.tasks[u := s.tasks[u].(done := true)])
  }

  // ---------------------------------------------------------------- the invariant

  predicate Live(s: State, t: nat) {
    t in s.tasks && !s.tasks[t].done
  }

  predicate PlaceOk(s: State, t: nat)
    requires t in s.tasks && t in s.places && Rooted(s.tree)
  {
    var p := s.places[t];
    && StructuralNode(s.tree, p.base) && s.tree[p.base].taskId == t
    && (s.tasks[t].blocked <==> p.root != 0)
    && (p.fin != 0 ==>
          && 2 <= p.fin < |s.tree| && s.tree[p.fin].parent == p.base && s.tree[p.fin].kind == Finish
          && s.tree[p.fin].taskId == t && s.tree[p.base].numChildren == s.tree[p.fin].seqNum + 1)
    && (p.root != 0 ==>
          && p.fin == 0 && 2 <= p.root < |s.tree| && s.tree[p.root].parent == p.base && s.tree[p.root].kind == Finish)
  }

  predicate Placed(s: State, t: nat) {
    t in s.tasks && t in s.places && Rooted(s.tree) && PlaceOk(s, t)
  }

  ghost predicate Shape(s: State) {
    && WellFormed(s.tree)
    && s.tasks.Keys == s.places.Keys
    && (forall t {:trigger Placed(s, t)} | t in s.tasks :: Placed(s, t))
    && (forall n {:trigger s.tree[n].taskId} | 1 <= n < |s.tree| :: s.tree[n].taskId in s.tasks)
  }

  /** What happened before a step, by the program's account, is what precedes it in the tree. */
  ghost predicate PastOk(s: State, b: nat)
    requires Rooted(s.tree) && b in s.past && IsStep(s.tree, b)
  {
    forall a: nat :: a in s.past[b] <==> IsStep(s.tree, a) && Precedes(s.tree, a, b)
  }

  ghost predicate KnownIsAhead(s: State, t: nat, a: nat)
    requires Placed(s, t)
  {
    IsStep(s.tree, a) && AheadOf(s.tree, a, OwnerOf(s.places[t]))
  }

  ghost predicate KnownIffAhead(s: State, t: nat, a: nat)
    requires Placed(s, t) && IsStep(s.tree, a)
  {
    a in All(s.tasks[t]) <==> AheadOf(s.tree, a, OwnerOf(s.places[t])) && !Under(s.tree, s.places[t].root, a)
  }

  /** A live task knows exactly the steps ahead of its next one; a task that is done knows only such. */
  ghost predicate KnowsOk(s: State, t: nat)
    requires Placed(s, t)
  {
    && (forall a {:trigger KnownIsAhead(s, t, a)} | a in All(s.tasks[t]) :: KnownIsAhead(s, t, a))
    && (!s.tasks[t].done ==> forall a: nat {:trigger KnownIffAhead(s, t, a)} | IsStep(s.tree, a) :: KnownIffAhead(s, t, a))
  }

  /** A task knows its own steps. */
  ghost predicate OwnStepKnown(s: State, x: nat)
    requires IsStep(s.tree, x) && s.tree[x].taskId in s.tasks
  {
    x in All(s.tasks[s.tree[x].taskId])
  }

  /** Live tasks are unordered, except that one may stand inside what another is blocked on. */
  ghost predicate Apart(s: State, u: nat, t: nat)
    requires Placed(s, u) && Placed(s, t)
  {
    AheadOf(s.tree, OwnerOf(s.places[u]), OwnerOf(s.places[t])) ==>
      Under(s.tree, s.places[t].root, OwnerOf(s.places[u]))
  }

  ghost predicate NothingAfter(s: State, u: nat)
    requires Placed(s, u)
  {
    forall y: nat | IsStep(s.tree, y) :: !Precedes(s.tree, OwnerOf(s.places[u]), y)
  }

  /** Inside a task's open scope there are only nodes of that task and of its team. */
  ghost predicate ScopeNodes(s: State, t: nat)
    requires Placed(s, t)
  {
    forall x: nat {:trigger s.tree[x].taskId} | IsNode(s.tree, x) && Under(s.tree, ScopeOf(s.places[t]), x) ::
      s.tree[x].taskId == t || s.tree[x].taskId in s.tasks[t].team
  }

  /** The team of a task stands inside its scope. */
  ghost predicate ScopeTeam(s: State, t: nat)
    requires Placed(s, t)
  {
    forall d | d in s.tasks[t].team :: d != t && Placed(s, d) && Under(s.tree, ScopeOf(s.places[t]), s.places[d].base)
  }

  ghost predicate PastsOk(s: State) {
    && Shape(s)
    && (forall b: nat {:trigger b in s.past} :: b in s.past <==> IsStep(s.tree, b))
    && (forall b {:trigger PastOk(s, b)} | b in s.past :: PastOk(s, b))
  }

  ghost predicate TasksKnow(s: State) {
    Shape(s) && forall t {:trigger KnowsOk(s, t)} | t in s.tasks :: Placed(s, t) && KnowsOk(s, t)
  }

  ghost predicate StepsKnown(s: State) {
    Shape(s) && forall x: nat {:trigger OwnStepKnown(s, x)} | IsStep(s.tree, x) :: OwnStepKnown(s, x)
  }

  ghost predicate AllApart(s: State) {
    && Shape(s)
    && forall u, t {:trigger Apart(s, u, t)} | Live(s, u) && Live(s, t) && u != t ::
         Placed(s, u) && Placed(s, t) && Apart(s, u, t)
  }

  ghost predicate NoneAfter(s: State) {
    Shape(s) && forall u {:trigger NothingAfter(s, u)} | Live(s, u) :: Placed(s, u) && NothingAfter(s, u)
  }

  ghost predicate ScopeOk(s: State, t: nat)
    requires Placed(s, t)
  {
    ScopeNodes(s, t) && ScopeTeam(s, t)
  }

  ghost predicate ScopesOk(s: State) {
    Shape(s) && forall t {:trigger ScopeOk(s, t)} | t in s.tasks :: Placed(s, t) && ScopeOk(s, t)
  }

  ghost predicate Invariant(s: State) {
    PastsOk(s) && TasksKnow(s) && StepsKnown(s) && AllApart(s) && NoneAfter(s) && ScopesOk(s)
  }

  lemma OwnerIsOwn(s: State, t: nat)
    requires Placed(s, t)
    ensures StructuralNode(s.tree, OwnerOf(s.places[t])) && s.tree[OwnerOf(s.places[t])].taskId == t
    ensures s.places[t].fin != 0 || s.places[t].root != 0 ==>
            2 <= ScopeOf(s.places[t]) < |s.tree| && s.tree[ScopeOf(s.places[t])].parent == s.places[t].base
  {
  }

  /** The owner of a task lies under whatever its base lies under. */
  lemma OwnerUnder(s: State, t: nat, f: nat)
    requires Placed(s, t) && Under(s.tree, f, s.places[t].base)
    ensures Under(s.tree, f, OwnerOf(s.places[t]))
  {
  }

  // ---------------------------------------------------------------- appending one node

  /** Facts about old nodes that survive any append. */
  lemma UnderStable(t: Tree, u: Tree, r: nat, x: nat)
    requires Rooted(t) && Rooted(u) && Extends(t, u) && IsNode(t, x)
    ensures Under(t, r, x) == Under(u, r, x)
  {
    AncestorStable(t, u, r, x);
  }

  lemma PastStable(s: State, s': State, p: nat, b: nat)
    requires Appended(s.tree, s'.tree, p)
    requires b in s.past && b in s'.past && s.past[b] == s'.past[b] && IsStep(s.tree, b) && PastOk(s, b)
    requires IsStep(s'.tree, |s.tree|) ==> !Precedes(s.tree, p, b)
    ensures IsStep(s'.tree, b) && PastOk(s', b)
  {
    assert SameStructure(s.tree[b], s'.tree[b]);
    forall a: nat
      ensures a in s'.past[b] <==> IsStep(s'.tree, a) && Precedes(s'.tree, a, b)
    {
      if a < |s.tree| {
        if a != 0 {
          assert SameStructure(s.tree[a], s'.tree[a]);
          PrecedesStable(s.tree, s'.tree, a, b);
        }
      } else if a == |s.tree| {
        NewNodePrecedes(s.tree, s'.tree, p, b);
      }
    }
  }

  lemma KnownStable(s: State, s': State, t: nat)
    requires Placed(s, t) && Placed(s', t) && Extends(s.tree, s'.tree)
    requires All(s.tasks[t]) == All(s'.tasks[t]) && OwnerOf(s.places[t]) == OwnerOf(s'.places[t])
    requires forall a {:trigger KnownIsAhead(s, t, a)} | a in All(s.tasks[t]) :: KnownIsAhead(s, t, a)
    ensures forall a {:trigger KnownIsAhead(s', t, a)} | a in All(s'.tasks[t]) :: KnownIsAhead(s', t, a)
  {
    forall a: nat | a in All(s'.tasks[t])
      ensures KnownIsAhead(s', t, a)
    {
      assert KnownIsAhead(s, t, a);
      OwnerIsOwn(s, t);
      OldNodeKeeps(s.tree, s'.tree, OwnerOf(s.places[t]), 0, 0, a);
    }
  }

  lemma OldStepStable(s: State, s': State, t: nat, a: nat)
    requires Placed(s, t) && Placed(s', t) && Extends(s.tree, s'.tree)
    requires All(s.tasks[t]) == All(s'.tasks[t]) && OwnerOf(s.places[t]) == OwnerOf(s'.places[t])
    requires s'.places[t].root == s.places[t].root || (s.places[t].root == 0 && s'.places[t].root == |s.tree|)
    requires IsNode(s.tree, a) && IsStep(s'.tree, a)
    ensures IsStep(s.tree, a) && KnownIffAhead(s, t, a) == KnownIffAhead(s', t, a)
  {
    OwnerIsOwn(s, t);
    OldNodeKeeps(s.tree, s'.tree, OwnerOf(s.places[t]), s.places[t].root, s'.places[t].root, a);
  }

  /** A task keeps knowing what is ahead of it when another task appends under its own owner. */
  lemma KnowsStable(s: State, s': State, u: nat, t: nat)
    requires Placed(s, u) && Placed(s, t) && Placed(s', t)
    requires Appended(s.tree, s'.tree, OwnerOf(s.places[u]))
    requires KnowsOk(s, t) && All(s.tasks[t]) == All(s'.tasks[t]) && s.tasks[t].done == s'.tasks[t].done
    requires OwnerOf(s.places[t]) == OwnerOf(s'.places[t])
    requires s'.places[t].root == s.places[t].root || (s.places[t].root == 0 && s'.places[t].root == |s.tree|)
    requires IsStep(s'.tree, |s.tree|) && Live(s, t) ==> t != u && Live(s, u) && Apart(s, u, t)
    ensures KnowsOk(s', t)
  {
    KnownStable(s, s', t);
    if Live(s, t) {
      forall a: nat | IsStep(s'.tree, a)
        ensures KnownIffAhead(s', t, a)
      {
        if a < |s.tree| {
          OldStepStable(s, s', t, a);
          assert KnownIffAhead(s, t, a);
        } else {
          NewStepUnknown(s, s', u, t);
          assert !KnownIsAhead(s, t, a);
        }
      }
    }
  }

  lemma OldNodeKeeps(t: Tree, u: Tree, o: nat, r: nat, r': nat, a: nat)
    requires Rooted(t) && Rooted(u) && Extends(t, u) && IsNode(t, o) && IsNode(t, a)
    requires r' == r || (r == 0 && r' == |t|)
    ensures IsNode(u, a) && IsStep(t, a) == IsStep(u, a)
    ensures AheadOf(t, a, o) == AheadOf(u, a, o) && Under(t, r, a) == Under(u, r', a)
  {
    assert SameStructure(t[a], u[a]);
    AheadStable(t, u, a, o);
    UnderStable(t, u, r', a);
  }

  lemma NewStepUnknown(s: State, s': State, u: nat, t: nat)
    requires Placed(s, u) && Placed(s, t) && Placed(s', t) && t != u
    requires Appended(s.tree, s'.tree, OwnerOf(s.places[u])) && Apart(s, u, t)
    requires OwnerOf(s.places[t]) == OwnerOf(s'.places[t])
    requires s'.places[t].root == s.places[t].root || (s.places[t].root == 0 && s'.places[t].root == |s.tree|)
    ensures AheadOf(s'.tree, |s.tree|, OwnerOf(s'.places[t])) ==> Under(s'.tree, s'.places[t].root, |s.tree|)
  {
    OwnerIsOwn(s, t);
    OwnerIsOwn(s, u);
    NewNodeAhead(s.tree, s'.tree, OwnerOf(s.places[u]), OwnerOf(s.places[t]));
    if s.places[t].root != 0 {
      NewNodeAncestors(s.tree, s'.tree, OwnerOf(s.places[u]), s.places[t].root);
    }
  }

  lemma ApartStable(s: State, s': State, p: nat, u: nat, t: nat)
    requires Appended(s.tree, s'.tree, p) && Placed(s, u) && Placed(s, t) && Placed(s', u) && Placed(s', t)
    requires Apart(s, u, t) && OwnerOf(s.places[u]) == OwnerOf(s'.places[u]) && OwnerOf(s.places[t]) == OwnerOf(s'.places[t])
    requires s.places[t].root == s'.places[t].root || s.places[t].root == 0
    ensures Apart(s', u, t)
  {
    OwnerIsOwn(s, u);
    OwnerIsOwn(s, t);
    AheadStable(s.tree, s'.tree, OwnerOf(s.places[u]), OwnerOf(s.places[t]));
    UnderStable(s.tree, s'.tree, s'.places[t].root, OwnerOf(s.places[u]));
  }

  lemma NothingAfterStable(s: State, s': State, p: nat, u: nat)
    requires Appended(s.tree, s'.tree, p) && Placed(s, u) && Placed(s', u)
    requires NothingAfter(s, u) && OwnerOf(s.places[u]) == OwnerOf(s'.places[u])
    requires IsStep(s'.tree, |s.tree|) ==> !AheadOf(s.tree, OwnerOf(s.places[u]), p)
    ensures NothingAfter(s', u)
  {
    var o := OwnerOf(s.places[u]);
    OwnerIsOwn(s, u);
    forall y: nat | IsStep(s'.tree, y)
      ensures !Precedes(s'.tree, o, y)
    {
      if y < |s.tree| {
        assert SameStructure(s.tree[y], s'.tree[y]);
        PrecedesStable(s.tree, s'.tree, o, y);
      } else {
        PrecedesNewNode(s.tree, s'.tree, p, o);
      }
    }
  }

  /** A scope that was open stays right: the new node belongs to the task or to its team. */
  lemma ScopeNodesStable(s: State, s': State, u: nat, t: nat)
    requires Placed(s, u) && Placed(s, t) && Placed(s', t)
    requires Appended(s.tree, s'.tree, OwnerOf(s.places[u]))
    requires ScopeNodes(s, t) && ScopeOf(s.places[t]) == ScopeOf(s'.places[t])
    requires s.tasks[t].team <= s'.tasks[t].team
    requires t == u || u in s.tasks[t].team ==> s'.tree[|s.tree|].taskId == t || s'.tree[|s.tree|].taskId in s'.tasks[t].team
    ensures ScopeNodes(s', t)
  {
    var f, p, n := ScopeOf(s.places[t]), OwnerOf(s.places[u]), |s.tree|;
    OwnerIsOwn(s, t);
    OwnerIsOwn(s, u);
    if f != 0 {
      NewNodeAncestors(s.tree, s'.tree, p, f);
    }
    forall x: nat | IsNode(s'.tree, x) && Under(s'.tree, f, x)
      ensures s'.tree[x].taskId == t || s'.tree[x].taskId in s'.tasks[t].team
    {
      if x < n {
        assert SameStructure(s.tree[x], s'.tree[x]);
        UnderStable(s.tree, s'.tree, f, x);
      } else {
        assert Under(s.tree, f, p) && s.tree[p].taskId == u;
      }
    }
  }

  lemma TeamMemberStable(s: State, s': State, t: nat, d: nat)
    requires Placed(s, t) && Placed(s', t) && Placed(s, d) && Placed(s', d)
    requires WellFormed(s.tree) && WellFormed(s'.tree) && Extends(s.tree, s'.tree)
    requires ScopeOf(s.places[t]) == ScopeOf(s'.places[t]) && s.places[d].base == s'.places[d].base
    requires Under(s.tree, ScopeOf(s.places[t]), s.places[d].base)
    ensures Under(s'.tree, ScopeOf(s'.places[t]), s'.places[d].base)
  {
    UnderStable(s.tree, s'.tree, ScopeOf(s.places[t]), s.places[d].base);
  }

  // ---------------------------------------------------------------- beginning a step

  lemma PlacedStable(s: State, s': State, u: nat, t: nat, kind: NodeType, id: nat, root: bool)
    requires WellFormed(s.tree) && Placed(s, u) && Placed(s, t) && kind != NoType
    requires s'.tree == AddChild(s.tree, OwnerOf(s.places[u]), kind, id, root)
    requires t in s'.tasks && t in s'.places && s'.places[t] == s.places[t] && s'.tasks[t].blocked == s.tasks[t].blocked
    ensures Placed(s', t)
  {
  }

  lemma FreshStepShape(s: State, u: nat)
    requires Shape(s) && CanAct(s, u)
    ensures Shape(FreshStep(s, u)) && Appended(s.tree, FreshStep(s, u).tree, OwnerOf(s.places[u]))
  {
    var s' := FreshStep(s, u);
    AddChildAppends(s.tree, OwnerOf(s.places[u]), Step, u, false);
    assert Placed(s, u);
    forall t | t in s'.tasks
      ensures Placed(s', t)
    {
      assert Placed(s, t);
      PlacedStable(s, s', u, t, Step, u, false);
    }
    forall n | 1 <= n < |s'.tree|
      ensures s'.tree[n].taskId in s'.tasks
    {
      assert n < |s.tree| ==> s.tree[n].taskId in s.tasks;
    }
  }

  lemma NewStepPast(s: State, u: nat)
    requires CanAct(s, u) && Placed(s, u) && KnowsOk(s, u)
    requires Appended(s.tree, FreshStep(s, u).tree, OwnerOf(s.places[u]))
    ensures IsStep(FreshStep(s, u).tree, |s.tree|) && PastOk(FreshStep(s, u), |s.tree|)
  {
    var s', p, n := FreshStep(s, u), OwnerOf(s.places[u]), |s.tree|;
    forall a: nat
      ensures a in s'.past[n] <==> IsStep(s'.tree, a) && Precedes(s'.tree, a, n)
    {
      if a in All(s.tasks[u]) { assert KnownIsAhead(s, u, a); }
      if 1 <= a < n {
        assert SameStructure(s.tree[a], s'.tree[a]);
        PrecedesNewNode(s.tree, s'.tree, p, a);
        if IsStep(s.tree, a) { assert KnownIffAhead(s, u, a); }
      } else if a == n {
        PrecedesIrreflexive(s'.tree, n);
      }
    }
  }

  lemma NewStepKnown(s: State, u: nat)
    requires CanAct(s, u) && Placed(s, u) && Placed(FreshStep(s, u), u) && KnowsOk(s, u)
    requires Appended(s.tree, FreshStep(s, u).tree, OwnerOf(s.places[u]))
    ensures KnowsOk(FreshStep(s, u), u)
  {
    var s', p, n := FreshStep(s, u), OwnerOf(s.places[u]), |s.tree|;
    OwnerIsOwn(s, u);
    NewNodeAhead(s.tree, s'.tree, p, p);
    forall a: nat | IsStep(s'.tree, a)
      ensures KnownIffAhead(s', u, a)
    {
      if a < n {
        OldNodeKeeps(s.tree, s'.tree, p, 0, 0, a);
        assert KnownIffAhead(s, u, a);
      }
    }
    forall a: nat | a in All(s'.tasks[u])
      ensures KnownIsAhead(s', u, a)
    {
      if a != n {
        assert KnownIsAhead(s, u, a);
        OldNodeKeeps(s.tree, s'.tree, p, 0, 0, a);
      }
    }
  }

  lemma FreshStepPast(s: State, u: nat, b: nat)
    requires CanAct(s, u) && Placed(s, u) && KnowsOk(s, u) && NothingAfter(s, u)
    requires Appended(s.tree, FreshStep(s, u).tree, OwnerOf(s.places[u]))
    requires b == |s.tree| || (b in s.past && IsStep(s.tree, b) && PastOk(s, b))
    ensures IsStep(FreshStep(s, u).tree, b) && PastOk(FreshStep(s, u), b)
  {
    if b == |s.tree| {
      NewStepPast(s, u);
    } else {
      PastStable(s, FreshStep(s, u), OwnerOf(s.places[u]), b);
    }
  }

  lemma FreshStepKnows(s: State, u: nat, t: nat)
    requires CanAct(s, u) && Placed(s, u) && Placed(s, t) && Placed(FreshStep(s, u), t) && KnowsOk(s, t)
    requires t != u && Live(s, t) ==> Apart(s, u, t)
    requires Appended(s.tree, FreshStep(s, u).tree, OwnerOf(s.places[u]))
    ensures KnowsOk(FreshStep(s, u), t)
  {
    if t == u {
      NewStepKnown(s, u);
    } else {
      KnowsStable(s, FreshStep(s, u), u, t);
    }
  }

  lemma FreshStepNothingAfter(s: State, u: nat, v: nat)
    requires CanAct(s, u) && Placed(s, u) && Placed(s, v) && Placed(FreshStep(s, u), v) && NothingAfter(s, v)
    requires v != u ==> Apart(s, v, u)
    requires Appended(s.tree, FreshStep(s, u).tree, OwnerOf(s.places[u]))
    ensures NothingAfter(FreshStep(s, u), v)
  {
    NotAheadOfItself(s.tree, OwnerOf(s.places[u]));
    NothingAfterStable(s, FreshStep(s, u), OwnerOf(s.places[u]), v);
  }

  lemma FreshStepScope(s: State, u: nat, t: nat)
    requires CanAct(s, u) && Shape(s) && Shape(FreshStep(s, u)) && t in s.tasks
    requires Placed(s, u) && Placed(s, t) && Placed(FreshStep(s, u), t) && ScopeOk(s, t)
    requires Appended(s.tree, FreshStep(s, u).tree, OwnerOf(s.places[u]))
    ensures ScopeOk(FreshStep(s, u), t)
  {
    var s' := FreshStep(s, u);
    ScopeNodesStable(s, s', u, t);
    forall d | d in s'.tasks[t].team
      ensures d != t && Placed(s', d) && Under(s'.tree, ScopeOf(s'.places[t]), s'.places[d].base)
    {
      assert Placed(s, d) && d in s'.tasks;
      assert Placed(s', d);
      TeamMemberStable(s, s', t, d);
    }
  }

  /** The order of live tasks, and their place after everything done, survive any fresh step. */
  lemma FreshStepOrder(s: State, u: nat)
    requires AllApart(s) && NoneAfter(s) && CanAct(s, u) && Shape(FreshStep(s, u))
    requires Appended(s.tree, FreshStep(s, u).tree, OwnerOf(s.places[u]))
    ensures AllApart(FreshStep(s, u)) && NoneAfter(FreshStep(s, u))
  {
    var s', p := FreshStep(s, u), OwnerOf(s.places[u]);
    assert Placed(s, u);
    forall v, t | Live(s', v) && Live(s', t) && v != t
      ensures Placed(s', v) && Placed(s', t) && Apart(s', v, t)
    {
      assert Live(s, v) && Live(s, t) && Placed(s, v) && Placed(s, t) && Apart(s, v, t);
      assert Placed(s', v) && Placed(s', t);
      ApartStable(s, s', p, v, t);
    }
    forall v | Live(s', v)
      ensures Placed(s', v) && NothingAfter(s', v)
    {
      assert Live(s, v) && Placed(s, v) && Placed(s', v) && NothingAfter(s, v);
      if v != u { assert Live(s, u) && Apart(s, v, u); }
      FreshStepNothingAfter(s, u, v);
    }
  }

  lemma FreshStepTasks(s: State, u: nat)
    requires TasksKnow(s) && AllApart(s) && ScopesOk(s) && CanAct(s, u) && Shape(FreshStep(s, u))
    requires Appended(s.tree, FreshStep(s, u).tree, OwnerOf(s.places[u]))
    ensures TasksKnow(FreshStep(s, u)) && ScopesOk(FreshStep(s, u))
  {
    var s', p := FreshStep(s, u), OwnerOf(s.places[u]);
    assert Placed(s, u) && Live(s, u);
    forall t | t in s'.tasks
      ensures Placed(s', t) && KnowsOk(s', t) && ScopeOk(s', t)
    {
      assert Placed(s, t) && Placed(s', t) && KnowsOk(s, t) && ScopeOk(s, t);
      if t != u && Live(s, t) { assert Apart(s, u, t); }
      FreshStepKnows(s, u, t);
      FreshStepScope(s, u, t);
    }
  }

  lemma StepsStable(t: Tree, u: Tree)
    requires Extends(t, u)
    ensures forall x: nat | IsNode(t, x) :: IsStep(u, x) == IsStep(t, x) && u[x].taskId == t[x].taskId
  {
  }

  lemma FreshStepPasts(s: State, u: nat)
    requires PastsOk(s) && TasksKnow(s) && NoneAfter(s) && CanAct(s, u) && Shape(FreshStep(s, u))
    requires Appended(s.tree, FreshStep(s, u).tree, OwnerOf(s.places[u]))
    ensures PastsOk(FreshStep(s, u))
  {
    var s', n := FreshStep(s, u), |s.tree|;
    assert Placed(s, u) && KnowsOk(s, u) && Live(s, u) && NothingAfter(s, u);
    StepsStable(s.tree, s'.tree);
    forall b | b in s'.past
      ensures IsStep(s'.tree, b) && PastOk(s', b)
    {
      assert b == n || (b in s.past && PastOk(s, b));
      FreshStepPast(s, u, b);
    }
  }

  lemma FreshStepSteps(s: State, u: nat)
    requires StepsKnown(s) && CanAct(s, u) && Shape(FreshStep(s, u))
    requires Appended(s.tree, FreshStep(s, u).tree, OwnerOf(s.places[u]))
    ensures StepsKnown(FreshStep(s, u))
  {
    var s' := FreshStep(s, u);
    StepsStable(s.tree, s'.tree);
    forall x: nat | IsStep(s'.tree, x)
      ensures OwnStepKnown(s', x)
    {
      assert x < |s.tree| ==> OwnStepKnown(s, x);
    }
  }

  /** Beginning a step keeps the invariant. */
  lemma FreshStepKeeps(s: State, u: nat)
    requires Invariant(s) && CanAct(s, u)
    ensures Invariant(FreshStep(s, u))
  {
    FreshStepShape(s, u);
    FreshStepOrder(s, u);
    FreshStepTasks(s, u);
    FreshStepPasts(s, u);
    FreshStepSteps(s, u);
  }

  // ---------------------------------------------------------------- opening an implicit FINISH

  lemma OpenFinShape(s: State, u: nat)
    requires Shape(s) && CanAct(s, u) && s.places[u].fin == 0
    ensures Shape(OpenFin(s, u)) && Appended(s.tree, OpenFin(s, u).tree, OwnerOf(s.places[u]))
  {
    var s' := OpenFin(s, u);
    AddChildAppends(s.tree, OwnerOf(s.places[u]), Finish, u, false);
    assert Placed(s, u);
    forall t | t in s'.tasks
      ensures Placed(s', t)
    {
      assert Placed(s, t);
      if t != u { PlacedStable(s, s', u, t, Finish, u, false); }
    }
    forall n | 1 <= n < |s'.tree|
      ensures s'.tree[n].taskId in s'.tasks
    {
      assert n < |s.tree| ==> s.tree[n].taskId in s.tasks;
    }
  }

  lemma OpenFinOwnKnows(s: State, u: nat)
    requires CanAct(s, u) && s.places[u].fin == 0 && Placed(s, u) && Placed(OpenFin(s, u), u) && KnowsOk(s, u)
    requires Appended(s.tree, OpenFin(s, u).tree, OwnerOf(s.places[u]))
    ensures KnowsOk(OpenFin(s, u), u)
  {
    var s', p, n := OpenFin(s, u), OwnerOf(s.places[u]), |s.tree|;
    StepsStable(s.tree, s'.tree);
    forall a: nat | IsStep(s'.tree, a)
      ensures KnownIffAhead(s', u, a)
    {
      AheadOfNewNode(s.tree, s'.tree, p, a);
      assert KnownIffAhead(s, u, a);
    }
    forall a: nat | a in All(s'.tasks[u])
      ensures KnownIsAhead(s', u, a)
    {
      assert KnownIsAhead(s, u, a);
      AheadOfNewNode(s.tree, s'.tree, p, a);
    }
  }

  lemma OpenFinScope(s: State, u: nat, t: nat)
    requires CanAct(s, u) && s.places[u].fin == 0 && Shape(s) && Shape(OpenFin(s, u))
    requires Placed(s, u) && Placed(s, t) && Placed(OpenFin(s, u), t) && ScopeOk(s, t)
    requires Appended(s.tree, OpenFin(s, u).tree, OwnerOf(s.places[u]))
    ensures ScopeOk(OpenFin(s, u), t)
  {
    var s', n := OpenFin(s, u), |s.tree|;
    if t == u {
      assert s.tasks[u].team == {};
      forall x: nat | IsNode(s'.tree, x) && Under(s'.tree, n, x)
        ensures x == n
      {
      }
    } else {
      ScopeNodesStable(s, s', u, t);
      forall d | d in s'.tasks[t].team
        ensures d != t && Placed(s', d) && Under(s'.tree, ScopeOf(s'.places[t]), s'.places[d].base)
      {
        assert Placed(s, d) && d in s'.tasks;
        assert Placed(s', d);
        TeamMemberStable(s, s', t, d);
      }
    }
  }

  lemma OpenFinTasks(s: State, u: nat)
    requires TasksKnow(s) && ScopesOk(s) && CanAct(s, u) && s.places[u].fin == 0 && Shape(OpenFin(s, u))
    requires Appended(s.tree, OpenFin(s, u).tree, OwnerOf(s.places[u]))
    ensures TasksKnow(OpenFin(s, u)) && ScopesOk(OpenFin(s, u))
  {
    var s' := OpenFin(s, u);
    assert Placed(s, u);
    forall t | t in s'.tasks
      ensures Placed(s', t) && KnowsOk(s', t) && ScopeOk(s', t)
    {
      assert Placed(s, t) && Placed(s', t) && KnowsOk(s, t) && ScopeOk(s, t);
      if t == u { OpenFinOwnKnows(s, u); } else { KnowsStable(s, s', u, t); }
      OpenFinScope(s, u, t);
    }
  }

  lemma OpenFinOwnOrder(s: State, u: nat, t: nat)
    requires CanAct(s, u) && s.places[u].fin == 0 && u != t && Placed(s, u) && Placed(s, t)
    requires Placed(OpenFin(s, u), u) && Placed(OpenFin(s, u), t) && Apart(s, u, t) && Apart(s, t, u)
    requires Appended(s.tree, OpenFin(s, u).tree, OwnerOf(s.places[u]))
    ensures Apart(OpenFin(s, u), u, t) && Apart(OpenFin(s, u), t, u)
  {
    var s', p := OpenFin(s, u), OwnerOf(s.places[u]);
    OwnerIsOwn(s, u);
    OwnerIsOwn(s, t);
    AheadOfNewNode(s.tree, s'.tree, p, OwnerOf(s.places[t]));
    NewNodeAhead(s.tree, s'.tree, p, OwnerOf(s.places[t]));
    if s.places[t].root != 0 {
      NewNodeAncestors(s.tree, s'.tree, p, s.places[t].root);
    }
  }

  lemma OpenFinNothingAfter(s: State, u: nat, v: nat)
    requires CanAct(s, u) && s.places[u].fin == 0 && Placed(s, u) && Placed(s, v)
    requires Placed(OpenFin(s, u), v) && NothingAfter(s, v)
    requires Appended(s.tree, OpenFin(s, u).tree, OwnerOf(s.places[u]))
    ensures NothingAfter(OpenFin(s, u), v)
  {
    var s', p := OpenFin(s, u), OwnerOf(s.places[u]);
    if v != u {
      NothingAfterStable(s, s', p, v);
    } else {
      StepsStable(s.tree, s'.tree);
      forall y: nat | IsStep(s'.tree, y)
        ensures !Precedes(s'.tree, |s.tree|, y)
      {
        NewNodePrecedes(s.tree, s'.tree, p, y);
      }
    }
  }

  lemma OpenFinOrder(s: State, u: nat)
    requires AllApart(s) && NoneAfter(s) && CanAct(s, u) && s.places[u].fin == 0 && Shape(OpenFin(s, u))
    requires Appended(s.tree, OpenFin(s, u).tree, OwnerOf(s.places[u]))
    ensures AllApart(OpenFin(s, u)) && NoneAfter(OpenFin(s, u))
  {
    var s', p := OpenFin(s, u), OwnerOf(s.places[u]);
    assert Placed(s, u) && Live(s, u);
    forall v, t | Live(s', v) && Live(s', t) && v != t
      ensures Placed(s', v) && Placed(s', t) && Apart(s', v, t)
    {
      assert Live(s, v) && Live(s, t) && Placed(s, v) && Placed(s, t) && Apart(s, v, t) && Apart(s, t, v);
      assert Placed(s', v) && Placed(s', t);
      if v == u {
        OpenFinOwnOrder(s, u, t);
      } else if t == u {
        OpenFinOwnOrder(s, u, v);
      } else {
        ApartStable(s, s', p, v, t);
      }
    }
    forall v | Live(s', v)
      ensures Placed(s', v) && NothingAfter(s', v)
    {
      assert Live(s, v) && Placed(s, v) && Placed(s', v) && NothingAfter(s, v);
      OpenFinNothingAfter(s, u, v);
    }
  }

  /** Steps and what happened before them do not change when a FINISH or an ASYNC is added. */
  lemma PastsUnchanged(s: State, s': State, p: nat)
    requires PastsOk(s) && Shape(s') && Appended(s.tree, s'.tree, p) && s'.past == s.past && !IsStep(s'.tree, |s.tree|)
    ensures PastsOk(s')
  {
    StepsStable(s.tree, s'.tree);
    forall b | b in s'.past
      ensures IsStep(s'.tree, b) && PastOk(s', b)
    {
      assert PastOk(s, b);
      PastStable(s, s', p, b);
    }
  }

  lemma StepsKnownUnchanged(s: State, s': State, p: nat)
    requires StepsKnown(s) && Shape(s') && Appended(s.tree, s'.tree, p) && !IsStep(s'.tree, |s.tree|)
    requires forall t | t in s.tasks :: t in s'.tasks && All(s.tasks[t]) == All(s'.tasks[t])
    ensures StepsKnown(s')
  {
    StepsStable(s.tree, s'.tree);
    forall x: nat | IsStep(s'.tree, x)
      ensures OwnStepKnown(s', x)
    {
      assert OwnStepKnown(s, x);
    }
  }

  lemma OpenFinKeeps(s: State, u: nat)
    requires Invariant(s) && CanAct(s, u) && s.places[u].fin == 0
    ensures Invariant(OpenFin(s, u))
  {
    OpenFinShape(s, u);
    OpenFinOrder(s, u);
    OpenFinTasks(s, u);
    PastsUnchanged(s, OpenFin(s, u), OwnerOf(s.places[u]));
    StepsKnownUnchanged(s, OpenFin(s, u), OwnerOf(s.places[u]));
  }

  // ---------------------------------------------------------------- creating a task

  /** A task spawns into its open implicit FINISH; it runs a root task only with none open. */
  predicate CanCreate(s: State, u: nat, c: nat, root: bool) {
    CanAct(s, u) && c !in s.tasks && (root <==> s.places[u].fin == 0)
  }

  lemma NewTaskPlaced(s: State, u: nat, c: nat, root: bool, t: nat)
    requires WellFormed(s.tree) && CanCreate(s, u, c, root) && Placed(s, u)
    requires t in s.tasks && Placed(s, t)
    ensures Placed(NewTask(s, u, c, root), t)
  {
    if t != u || !root {
      PlacedStable(s, NewTask(s, u, c, root), u, t, if root then Finish else Async, c, root);
    }
  }

  lemma NewTaskShape(s: State, u: nat, c: nat, root: bool)
    requires Shape(s) && CanCreate(s, u, c, root)
    ensures Shape(NewTask(s, u, c, root)) && Appended(s.tree, NewTask(s, u, c, root).tree, OwnerOf(s.places[u]))
  {
    var s' := NewTask(s, u, c, root);
    AddChildAppends(s.tree, OwnerOf(s.places[u]), if root then Finish else Async, c, root);
    assert Placed(s, u);
    forall t | t in s'.tasks
      ensures Placed(s', t)
    {
      if t != c {
        assert Placed(s, t);
        NewTaskPlaced(s, u, c, root, t);
      }
    }
    forall n | 1 <= n < |s'.tree|
      ensures s'.tree[n].taskId in s'.tasks
    {
      assert n < |s.tree| ==> s.tree[n].taskId in s.tasks;
    }
  }

  predicate KeptTask(s: State, s': State, u: nat, c: nat, root: bool, t: nat)
    requires t in s.tasks
  {
    && t in s'.tasks && t in s.places && t in s'.places
    && s'.tasks[t].known == s.tasks[t].known && s'.tasks[t].now == s.tasks[t].now && s'.tasks[t].done == s.tasks[t].done
    && s'.tasks[t].team == (if t == u || u in s.tasks[t].team then s.tasks[t].team + {c} else s.tasks[t].team)
    && s'.places[t] == (if t == u && root then s.places[t].(root := |s.tree|) else s.places[t])
  }

  /** What creating a task changes and what it leaves alone. */
  ghost predicate Created(s: State, s': State, u: nat, c: nat, root: bool) {
    && CanCreate(s, u, c, root) && Placed(s, u) && Placed(s', c)
    && Appended(s.tree, s'.tree, OwnerOf(s.places[u]))
    && s'.tree[|s.tree|].kind == (if root then Finish else Async) && s'.tree[|s.tree|].taskId == c
    && s'.past == s.past && s'.tasks.Keys == s.tasks.Keys + {c}
    && s'.tasks[c] == Task(All(s.tasks[u]), {}, {}, false, false) && s'.places[c] == Place(|s.tree|, 0, 0)
    && forall t {:trigger KeptTask(s, s', u, c, root, t)} | t in s.tasks :: KeptTask(s, s', u, c, root, t)
  }

  lemma NewTaskCreates(s: State, u: nat, c: nat, root: bool)
    requires Shape(s) && CanCreate(s, u, c, root) && Shape(NewTask(s, u, c, root))
    requires Appended(s.tree, NewTask(s, u, c, root).tree, OwnerOf(s.places[u]))
    ensures Created(s, NewTask(s, u, c, root), u, c, root)
  {
    assert Placed(s, u) && Placed(NewTask(s, u, c, root), c);
  }

  /** The new task knows what its spawner knows. */
  lemma NewTaskKnows(s: State, s': State, u: nat, c: nat, root: bool)
    requires Created(s, s', u, c, root) && Placed(s, u) && KnowsOk(s, u) && Placed(s', c)
    ensures KnowsOk(s', c)
  {
    var p := OwnerOf(s.places[u]);
    StepsStable(s.tree, s'.tree);
    forall a: nat | IsStep(s'.tree, a)
      ensures KnownIffAhead(s', c, a)
    {
      AheadOfNewNode(s.tree, s'.tree, p, a);
      assert KnownIffAhead(s, u, a);
    }
    forall a: nat | a in All(s'.tasks[c])
      ensures KnownIsAhead(s', c, a)
    {
      assert KnownIsAhead(s, u, a);
      AheadOfNewNode(s.tree, s'.tree, p, a);
    }
  }

  lemma NewTaskScopeNodes(s: State, s': State, u: nat, c: nat, root: bool, t: nat)
    requires Created(s, s', u, c, root) && Placed(s, u) && Placed(s, t) && Placed(s', t) && ScopeNodes(s, t)
    ensures ScopeNodes(s', t)
  {
    var n := |s.tree|;
    assert KeptTask(s, s', u, c, root, t);
    if t == u && root {
      forall x: nat | IsNode(s'.tree, x) && Under(s'.tree, n, x)
        ensures x == n
      {
      }
    } else {
      ScopeNodesStable(s, s', u, t);
    }
  }

  lemma NewTaskScopeTeam(s: State, s': State, u: nat, c: nat, root: bool, t: nat)
    requires Created(s, s', u, c, root) && Shape(s) && Shape(s')
    requires Placed(s, u) && Placed(s, t) && Placed(s', t) && ScopeTeam(s, t)
    ensures ScopeTeam(s', t)
  {
    var n := |s.tree|;
    assert KeptTask(s, s', u, c, root, t);
    assert Placed(s', c);
    forall d | d in s'.tasks[t].team
      ensures d != t && Placed(s', d) && Under(s'.tree, ScopeOf(s'.places[t]), s'.places[d].base)
    {
      if d == c {
        if t != u {
          OwnerUnder(s, u, ScopeOf(s.places[t]));
        }
        NewNodeAncestors(s.tree, s'.tree, OwnerOf(s.places[u]), ScopeOf(s'.places[t]));
      } else {
        assert d in s.tasks[t].team && KeptTask(s, s', u, c, root, d) && Placed(s, d) && d in s'.tasks;
        assert Placed(s', d);
        TeamMemberStable(s, s', t, d);
      }
    }
  }

  lemma NewTaskTasks(s: State, s': State, u: nat, c: nat, root: bool)
    requires TasksKnow(s) && ScopesOk(s) && Created(s, s', u, c, root) && Shape(s')
    ensures TasksKnow(s') && ScopesOk(s')
  {
    assert Placed(s, u) && KnowsOk(s, u) && Placed(s', c);
    forall t | t in s'.tasks
      ensures Placed(s', t) && KnowsOk(s', t) && ScopeOk(s', t)
    {
      if t == c {
        NewTaskKnows(s, s', u, c, root);
      } else {
        assert KeptTask(s, s', u, c, root, t) && Placed(s, t) && Placed(s', t) && KnowsOk(s, t) && ScopeOk(s, t);
        KnowsStable(s, s', u, t);
        NewTaskScopeNodes(s, s', u, c, root, t);
        NewTaskScopeTeam(s, s', u, c, root, t);
      }
    }
  }

  lemma NewTaskOwnOrder(s: State, s': State, u: nat, c: nat, root: bool, t: nat)
    requires Created(s, s', u, c, root) && Placed(s, u) && Placed(s, t) && t != c
    requires Placed(s', c) && Placed(s', t)
    requires u != t ==> Apart(s, u, t) && Apart(s, t, u)
    ensures Apart(s', c, t) && Apart(s', t, c)
  {
    var p := OwnerOf(s.places[u]);
    assert KeptTask(s, s', u, c, root, t);
    OwnerIsOwn(s, u);
    OwnerIsOwn(s, t);
    NotAheadOfItself(s.tree, p);
    AheadOfNewNode(s.tree, s'.tree, p, OwnerOf(s.places[t]));
    NewNodeAhead(s.tree, s'.tree, p, OwnerOf(s.places[t]));
    if s.places[t].root != 0 {
      NewNodeAncestors(s.tree, s'.tree, p, s.places[t].root);
    }
  }

  lemma NewTaskNothingAfter(s: State, s': State, u: nat, c: nat, root: bool)
    requires Created(s, s', u, c, root) && Placed(s, u) && NothingAfter(s, u) && Placed(s', c)
    ensures NothingAfter(s', c)
  {
    StepsStable(s.tree, s'.tree);
    forall y: nat | IsStep(s'.tree, y)
      ensures !Precedes(s'.tree, |s.tree|, y)
    {
      NewNodePrecedes(s.tree, s'.tree, OwnerOf(s.places[u]), y);
    }
  }

  lemma NewTaskApart(s: State, s': State, u: nat, c: nat, root: bool)
    requires AllApart(s) && Created(s, s', u, c, root) && Shape(s')
    ensures AllApart(s')
  {
    var p := OwnerOf(s.places[u]);
    assert Placed(s, u) && Live(s, u) && Placed(s', c);
    forall v, t | Live(s', v) && Live(s', t) && v != t
      ensures Placed(s', v) && Placed(s', t) && Apart(s', v, t)
    {
      var o := if v == c then t else v;
      assert KeptTask(s, s', u, c, root, o);
      assert Live(s, o) && Placed(s, o) && Placed(s', o);
      if v == c || t == c {
        if o != u { assert Apart(s, o, u) && Apart(s, u, o); }
        NewTaskOwnOrder(s, s', u, c, root, o);
      } else {
        assert KeptTask(s, s', u, c, root, t);
        assert Live(s, t) && Placed(s, t) && Placed(s', t) && Apart(s, v, t);
        ApartStable(s, s', p, v, t);
      }
    }
  }

  lemma NewTaskNoneAfter(s: State, s': State, u: nat, c: nat, root: bool)
    requires NoneAfter(s) && Created(s, s', u, c, root) && Shape(s')
    ensures NoneAfter(s')
  {
    var p := OwnerOf(s.places[u]);
    assert Placed(s, u) && Live(s, u) && NothingAfter(s, u) && Placed(s', c);
    forall v | Live(s', v)
      ensures Placed(s', v) && NothingAfter(s', v)
    {
      if v == c {
        NewTaskNothingAfter(s, s', u, c, root);
      } else {
        assert KeptTask(s, s', u, c, root, v);
        assert Live(s, v) && Placed(s, v) && Placed(s', v) && NothingAfter(s, v);
        NothingAfterStable(s, s', p, v);
      }
    }
  }

  lemma NewTaskKeeps(s: State, u: nat, c: nat, root: bool)
    requires Invariant(s) && CanCreate(s, u, c, root)
    ensures Invariant(NewTask(s, u, c, root))
  {
    var s', p := NewTask(s, u, c, root), OwnerOf(s.places[u]);
    NewTaskShape(s, u, c, root);
    NewTaskCreates(s, u, c, root);
    NewTaskApart(s, s', u, c, root);
    NewTaskNoneAfter(s, s', u, c, root);
    NewTaskTasks(s, s', u, c, root);
    PastsUnchanged(s, s', p);
    StepsKnownUnchanged(s, s', p);
  }

  // ---------------------------------------------------------------- waiting for the team

  /** A task may wait, or resume after a root task, once everything in its team is done. */
  predicate CanJoin(s: State, u: nat) {
    && u in s.tasks && u in s.places && !s.tasks[u].done
    && (s.places[u].fin != 0 || s.places[u].root != 0)
    && forall d | d in s.tasks[u].team :: d in s.tasks && s.tasks[d].done
  }

  lemma JoinShape(s: State, u: nat)
    requires Shape(s) && CanJoin(s, u)
    ensures Shape(Join(s, u))
  {
    forall t | t in Join(s, u).tasks
      ensures Placed(Join(s, u), t)
    {
      assert Placed(s, t);
    }
  }

  /** What the team knows, and what the task itself knew, is ahead of the base node. */
  lemma JoinLearnsAhead(s: State, u: nat, a: nat)
    requires WellFormed(s.tree) && CanJoin(s, u) && Placed(s, u) && TasksKnow(s) && ScopeTeam(s, u)
    requires a in All(Join(s, u).tasks[u])
    ensures IsStep(s.tree, a) && AheadOf(s.tree, a, s.places[u].base)
  {
    var f := ScopeOf(s.places[u]);
    OwnerIsOwn(s, u);
    if a in All(s.tasks[u]) {
      assert KnowsOk(s, u) && KnownIsAhead(s, u, a);
      if s.places[u].fin != 0 {
        AheadFromInside(s.tree, a, f, f);
      }
    } else {
      var d :| d in s.tasks[u].team && d in s.tasks && a in All(s.tasks[d]);
      assert Placed(s, d) && KnowsOk(s, d) && KnownIsAhead(s, d, a);
      OwnerUnder(s, d, f);
      AheadFromInside(s.tree, a, OwnerOf(s.places[d]), f);
    }
  }

  /** Everything ahead of the base node was known, or was done by the team. */
  lemma JoinLearnsAll(s: State, u: nat, a: nat)
    requires WellFormed(s.tree) && CanJoin(s, u) && Placed(s, u) && KnowsOk(s, u) && ScopeNodes(s, u) && StepsKnown(s)
    requires IsStep(s.tree, a) && AheadOf(s.tree, a, s.places[u].base)
    ensures a in All(Join(s, u).tasks[u])
  {
    var f := ScopeOf(s.places[u]);
    OwnerIsOwn(s, u);
    assert KnownIffAhead(s, u, a);
    if s.places[u].fin != 0 {
      AheadAtLastChild(s.tree, a, f);
    }
    if a !in All(s.tasks[u]) {
      assert Under(s.tree, f, a) && OwnStepKnown(s, a);
      assert a in TeamKnowledge(s, u);
    }
  }

  lemma JoinOwnKnows(s: State, u: nat)
    requires CanJoin(s, u) && TasksKnow(s) && StepsKnown(s) && Placed(s, u) && ScopeOk(s, u) && Placed(Join(s, u), u)
    ensures KnowsOk(Join(s, u), u)
  {
    var s' := Join(s, u);
    assert KnowsOk(s, u);
    forall a: nat | a in All(s'.tasks[u])
      ensures KnownIsAhead(s', u, a)
    {
      JoinLearnsAhead(s, u, a);
    }
    forall a: nat | IsStep(s'.tree, a)
      ensures KnownIffAhead(s', u, a)
    {
      if a in All(s'.tasks[u]) { assert KnownIsAhead(s', u, a); }
      if AheadOf(s.tree, a, s.places[u].base) { JoinLearnsAll(s, u, a); }
    }
  }

  lemma OthersKnow(s: State, s': State, t: nat)
    requires Placed(s, t) && Placed(s', t) && KnowsOk(s, t)
    requires s'.tree == s.tree && s'.places[t] == s.places[t]
    requires All(s'.tasks[t]) == All(s.tasks[t]) && (s.tasks[t].done ==> s'.tasks[t].done)
    ensures KnowsOk(s', t)
  {
    forall a: nat | a in All(s'.tasks[t])
      ensures KnownIsAhead(s', t, a)
    {
      assert KnownIsAhead(s, t, a);
    }
    if !s'.tasks[t].done {
      forall a: nat | IsStep(s'.tree, a)
        ensures KnownIffAhead(s', t, a)
      {
        assert KnownIffAhead(s, t, a);
      }
    }
  }

  lemma OthersScope(s: State, s': State, t: nat)
    requires Shape(s) && Shape(s') && Placed(s, t) && Placed(s', t) && ScopeOk(s, t)
    requires s'.tree == s.tree && s'.places[t] == s.places[t] && s'.tasks[t].team == s.tasks[t].team
    requires s'.places.Keys == s.places.Keys && forall d | d in s.places :: s'.places[d].base == s.places[d].base
    ensures ScopeOk(s', t)
  {
  }

  lemma JoinTasks(s: State, u: nat)
    requires TasksKnow(s) && StepsKnown(s) && ScopesOk(s) && CanJoin(s, u) && Shape(Join(s, u))
    ensures TasksKnow(Join(s, u)) && ScopesOk(Join(s, u))
  {
    var s' := Join(s, u);
    forall t | t in s'.tasks
      ensures Placed(s', t) && KnowsOk(s', t) && ScopeOk(s', t)
    {
      assert Placed(s, t) && Placed(s', t) && KnowsOk(s, t) && ScopeOk(s, t);
      if t == u {
        JoinOwnKnows(s, u);
      } else {
        OthersKnow(s, s', t);
        OthersScope(s, s', t);
      }
    }
  }

  lemma ScopeMember(s: State, u: nat, v: nat)
    requires Placed(s, u) && Placed(s, v) && v != u && ScopeNodes(s, u)
    ensures Under(s.tree, ScopeOf(s.places[u]), OwnerOf(s.places[v])) ==> v in s.tasks[u].team
  {
  }

  /** No live task stands before the task that has waited: whatever was inside its scope is done. */
  lemma JoinNobodyAhead(s: State, u: nat, v: nat)
    requires WellFormed(s.tree) && CanJoin(s, u) && Live(s, v) && v != u && Placed(s, u) && Placed(s, v)
    requires Apart(s, v, u) && ScopeNodes(s, u)
    ensures !AheadOf(s.tree, OwnerOf(s.places[v]), s.places[u].base)
  {
    var f, o := ScopeOf(s.places[u]), OwnerOf(s.places[v]);
    OwnerIsOwn(s, u);
    OwnerIsOwn(s, v);
    ScopeMember(s, u, v);
    if s.places[u].fin != 0 && AheadOf(s.tree, o, s.places[u].base) {
      AheadAtLastChild(s.tree, o, f);
    }
  }

  /** Moving up to the base node does not put the task before anyone. */
  lemma JoinAheadOfNobody(s: State, u: nat, t: nat)
    requires WellFormed(s.tree) && CanJoin(s, u) && t != u && Placed(s, u) && Placed(s, t) && Apart(s, u, t)
    ensures AheadOf(s.tree, s.places[u].base, OwnerOf(s.places[t])) ==> Under(s.tree, s.places[t].root, s.places[u].base)
  {
    OwnerIsOwn(s, u);
    OwnerIsOwn(s, t);
    if s.places[u].fin != 0 && AheadOf(s.tree, s.places[u].base, OwnerOf(s.places[t])) {
      ChildAhead(s.tree, s.places[u].fin, OwnerOf(s.places[t]));
      assert s.places[t].root != s.places[u].fin;
    }
  }

  lemma JoinNothingAfter(s: State, u: nat)
    requires WellFormed(s.tree) && CanJoin(s, u) && Placed(s, u) && Placed(Join(s, u), u) && NothingAfter(s, u)
    ensures NothingAfter(Join(s, u), u)
  {
    forall y: nat | IsStep(s.tree, y)
      ensures !Precedes(s.tree, s.places[u].base, y)
    {
      if s.places[u].fin != 0 && Precedes(s.tree, s.places[u].base, y) {
        ChildPrecedes(s.tree, s.places[u].fin, y);
      }
    }
  }

  lemma JoinApart(s: State, u: nat)
    requires AllApart(s) && ScopesOk(s) && CanJoin(s, u) && Shape(Join(s, u))
    ensures AllApart(Join(s, u))
  {
    var s' := Join(s, u);
    assert Placed(s, u) && ScopeOk(s, u);
    forall v, t | Live(s', v) && Live(s', t) && v != t
      ensures Placed(s', v) && Placed(s', t) && Apart(s', v, t)
    {
      assert Live(s, v) && Live(s, t) && Placed(s, v) && Placed(s, t) && Apart(s, v, t);
      assert Placed(s', v) && Placed(s', t);
      if t == u {
        JoinNobodyAhead(s, u, v);
      } else if v == u {
        JoinAheadOfNobody(s, u, t);
      }
    }
  }

  lemma JoinNoneAfter(s: State, u: nat)
    requires NoneAfter(s) && CanJoin(s, u) && Shape(Join(s, u))
    ensures NoneAfter(Join(s, u))
  {
    var s' := Join(s, u);
    forall v | Live(s', v)
      ensures Placed(s', v) && NothingAfter(s', v)
    {
      assert Live(s, v) && Placed(s, v) && NothingAfter(s, v) && Placed(s', v);
      if v == u { JoinNothingAfter(s, u); }
    }
  }

  lemma StepsStillKnown(s: State, s': State)
    requires PastsOk(s) && StepsKnown(s) && Shape(s') && s'.tree == s.tree && s'.past == s.past
    requires forall t | t in s.tasks :: t in s'.tasks && All(s.tasks[t]) <= All(s'.tasks[t])
    ensures PastsOk(s') && StepsKnown(s')
  {
    forall b | b in s'.past
      ensures PastOk(s', b)
    {
      assert PastOk(s, b);
    }
    forall x: nat | IsStep(s'.tree, x)
      ensures OwnStepKnown(s', x)
    {
      assert OwnStepKnown(s, x);
    }
  }

  /** Waiting keeps the invariant: the task then knows exactly the steps that precede its next one. */
  lemma JoinKeeps(s: State, u: nat)
    requires Invariant(s) && CanJoin(s, u)
    ensures Invariant(Join(s, u))
  {
    JoinShape(s, u);
    JoinTasks(s, u);
    JoinApart(s, u);
    JoinNoneAfter(s, u);
    StepsStillKnown(s, Join(s, u));
  }

  lemma FinishedShape(s: State, u: nat)
    requires Shape(s) && u in s.tasks
    ensures Shape(Finished(s, u))
  {
    forall t | t in Finished(s, u).tasks
      ensures Placed(Finished(s, u), t)
    {
      assert Placed(s, t);
    }
  }

  lemma FinishedTasks(s: State, u: nat)
    requires TasksKnow(s) && ScopesOk(s) && u in s.tasks && Shape(Finished(s, u))
    ensures TasksKnow(Finished(s, u)) && ScopesOk(Finished(s, u))
  {
    var s' := Finished(s, u);
    forall t | t in s'.tasks
      ensures Placed(s', t) && KnowsOk(s', t) && ScopeOk(s', t)
    {
      assert Placed(s, t) && Placed(s', t) && KnowsOk(s, t) && ScopeOk(s, t);
      OthersKnow(s, s', t);
      OthersScope(s, s', t);
    }
  }

  lemma FinishedOrder(s: State, u: nat)
    requires AllApart(s) && NoneAfter(s) && u in s.tasks && Shape(Finished(s, u))
    ensures AllApart(Finished(s, u)) && NoneAfter(Finished(s, u))
  {
    var s' := Finished(s, u);
    forall v, t | Live(s', v) && Live(s', t) && v != t
      ensures Placed(s', v) && Placed(s', t) && Apart(s', v, t)
    {
      assert Live(s, v) && Live(s, t) && Placed(s', v) && Placed(s', t) && Apart(s, v, t);
    }
    forall v | Live(s', v)
      ensures Placed(s', v) && NothingAfter(s', v)
    {
      assert Live(s, v) && Placed(s', v) && NothingAfter(s, v);
    }
  }

  lemma FinishedKeeps(s: State, u: nat)
    requires Invariant(s) && u in s.tasks
    ensures Invariant(Finished(s, u))
  {
    FinishedShape(s, u);
    FinishedTasks(s, u);
    FinishedOrder(s, u);
    StepsStillKnown(s, Finished(s, u));
  }
}
