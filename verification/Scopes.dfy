/** What has been waited for is over: once a task has left a scope, no task works there any
    more.  This is what lets a task go on in the step it was in before it ran a root task. */
module Scopes {
  import opened Dpst
  import opened Capture
  import opened Ahead
  import opened ForkJoin
  import opened Program

  predicate StandsUnder(s: State, d: nat, v: nat) {
    Placed(s, v) && IsAncestor(s.tree, d, OwnerOf(s.places[v]))
  }

  /** No live task works under `d`. */
  ghost predicate Sealed(s: State, d: nat) {
    forall v {:trigger Live(s, v)} | Live(s, v) :: !StandsUnder(s, d, v)
  }

  /** `d` hangs under the base of a live task and is not its open scope. */
  predicate ClosedChild(s: State, w: nat, d: nat) {
    && Live(s, w) && w in s.places && 2 <= d < |s.tree| && s.tree[d].parent == s.places[w].base
    && d != s.places[w].fin && d != s.places[w].root
  }

  /** Under the base of a live task there is no ASYNC, and its closed scopes are over. */
  ghost predicate ScopesSealed(s: State) {
    forall w: nat, d: nat {:trigger ClosedChild(s, w, d)} | ClosedChild(s, w, d) :: s.tree[d].kind != Async && Sealed(s, d)
  }

  /** From `s` to `s'` nothing that was over comes to life again. */
  ghost predicate StaySealed(s: State, s': State) {
    && Extends(s.tree, s'.tree)
    && forall d: nat {:trigger Sealed(s', d)} | 2 <= d < |s.tree| && Sealed(s, d) :: Sealed(s', d)
  }

  lemma StaySealedTransitive(s: State, s1: State, s2: State)
    requires StaySealed(s, s1) && StaySealed(s1, s2)
    ensures StaySealed(s, s2)
  {
    ExtendsTransitive(s.tree, s1.tree, s2.tree);
    forall d: nat | 2 <= d < |s.tree| && Sealed(s, d)
      ensures Sealed(s2, d)
    {
      assert Sealed(s1, d);
    }
  }

  // ---------------------------------------------------------------- where owners move

  /** Task `v` now works where `w` did, in a new node right under that, or right above. */
  predicate OwnerFrom(s: State, s': State, v: nat, w: nat) {
    && Live(s, w) && Placed(s, w) && Placed(s', v)
    && var o, o' := OwnerOf(s.places[w]), OwnerOf(s'.places[v]);
       o' == o || (o' == |s.tree| && s'.tree[o'].parent == o) || (o > HEAD && o' == s.tree[o].parent)
  }

  lemma OwnersMove(s: State, s': State)
    requires Shape(s) && Shape(s') && Extends(s.tree, s'.tree)
    requires forall v {:trigger Live(s', v)} | Live(s', v) :: exists w: nat :: OwnerFrom(s, s', v, w)
    ensures StaySealed(s, s')
  {
    forall d: nat, v: nat | 2 <= d < |s.tree| && Sealed(s, d) && Live(s', v)
      ensures !StandsUnder(s', d, v)
    {
      var w: nat :| OwnerFrom(s, s', v, w);
      OwnerMoves(s, s', v, w, d);
      assert Live(s, w) && !StandsUnder(s, d, w);
    }
  }

  lemma OwnerMoves(s: State, s': State, v: nat, w: nat, d: nat)
    requires Shape(s) && Shape(s') && Extends(s.tree, s'.tree) && OwnerFrom(s, s', v, w) && 2 <= d < |s.tree|
    ensures Live(s, w) && (StandsUnder(s', d, v) ==> StandsUnder(s, d, w))
  {
    OwnerIsOwn(s, w);
    var o, o' := OwnerOf(s.places[w]), OwnerOf(s'.places[v]);
    AncestorStable(s.tree, s'.tree, d, o);
    if o > HEAD { AncestorStable(s.tree, s'.tree, d, s.tree[o].parent); }
  }

  /** A child that closed with this step, or was added in it, is over and no ASYNC. */
  ghost predicate NewlyClosed(s: State, s': State) {
    forall w: nat, d: nat {:trigger ClosedChild(s', w, d)} | ClosedChild(s', w, d) && !(d < |s.tree| && ClosedChild(s, w, d)) ::
      s'.tree[d].kind != Async && Sealed(s', d)
  }

  lemma StillSealed(s: State, s': State)
    requires ScopesSealed(s) && StaySealed(s, s') && NewlyClosed(s, s')
    ensures ScopesSealed(s')
  {
    forall w: nat, d: nat | ClosedChild(s', w, d)
      ensures s'.tree[d].kind != Async && Sealed(s', d)
    {
      if d < |s.tree| && ClosedChild(s, w, d) {
        assert SameStructure(s.tree[d], s'.tree[d]);
      }
    }
  }

  /** A node just added has nobody under it, unless it is someone's owner. */
  lemma NewNodeSealed(s: State)
    requires Shape(s)
    requires forall v {:trigger Live(s, v)} | Live(s, v) :: v in s.places && OwnerOf(s.places[v]) < |s.tree| - 1
    ensures Sealed(s, |s.tree| - 1)
  {
  }

  // ---------------------------------------------------------------- the primitives

  lemma FreshStepSeals(s: State, u: nat)
    requires Shape(s) && ScopesSealed(s) && CanAct(s, u)
    ensures ScopesSealed(FreshStep(s, u)) && StaySealed(s, FreshStep(s, u))
  {
    var s', n := FreshStep(s, u), |s.tree|;
    FreshStepShape(s, u);
    forall v | Live(s', v)
      ensures OwnerFrom(s, s', v, v) && OwnerOf(s'.places[v]) < n
    {
      assert Live(s, v) && Placed(s, v) && Placed(s', v);
      OwnerIsOwn(s, v);
    }
    OwnersMove(s, s');
    NewNodeSealed(s');
    forall w: nat, d: nat | ClosedChild(s', w, d) && !(d < n && ClosedChild(s, w, d))
      ensures d == n
    {
      assert d < n ==> SameStructure(s.tree[d], s'.tree[d]);
    }
    StillSealed(s, s');
  }

  lemma OpenFinSeals(s: State, u: nat)
    requires Shape(s) && ScopesSealed(s) && CanAct(s, u) && s.places[u].fin == 0
    ensures ScopesSealed(OpenFin(s, u)) && StaySealed(s, OpenFin(s, u))
  {
    var s', n := OpenFin(s, u), |s.tree|;
    OpenFinShape(s, u);
    assert Placed(s, u);
    forall v | Live(s', v)
      ensures OwnerFrom(s, s', v, v)
    {
      assert Live(s, v) && Placed(s, v) && Placed(s', v);
    }
    OwnersMove(s, s');
    forall w: nat, d: nat | ClosedChild(s', w, d)
      ensures d < n && ClosedChild(s, w, d)
    {
      OldChild(s, s', u, w, d);
    }
    StillSealed(s, s');
  }

  /** Only the acting task gains a child under its base. */
  lemma OldChild(s: State, s': State, u: nat, w: nat, d: nat)
    requires Shape(s) && Placed(s, u) && Appended(s.tree, s'.tree, OwnerOf(s.places[u]))
    requires ClosedChild(s', w, d) && Live(s, w) && w in s.places && s'.places[w].base == s.places[w].base
    ensures d < |s.tree| ==> s.tree[d].parent == s.places[w].base
    ensures d == |s.tree| ==> w == u && OwnerOf(s.places[u]) == s.places[u].base
  {
    assert Placed(s, w);
    OwnerIsOwn(s, u);
    assert d < |s.tree| ==> SameStructure(s.tree[d], s'.tree[d]);
  }

  lemma NewTaskSeals(s: State, u: nat, c: nat, root: bool)
    requires Shape(s) && ScopesSealed(s) && CanCreate(s, u, c, root)
    ensures ScopesSealed(NewTask(s, u, c, root)) && StaySealed(s, NewTask(s, u, c, root))
  {
    var s', n := NewTask(s, u, c, root), |s.tree|;
    NewTaskShape(s, u, c, root);
    NewTaskCreates(s, u, c, root);
    forall v | Live(s', v)
      ensures OwnerFrom(s, s', v, if v == c then u else v)
    {
      assert Placed(s', v);
      if v != c { assert KeptTask(s, s', u, c, root, v) && Live(s, v) && Placed(s, v); }
    }
    OwnersMove(s, s');
    forall w: nat, d: nat | ClosedChild(s', w, d)
      ensures d < n && ClosedChild(s, w, d)
    {
      if w != c {
        assert KeptTask(s, s', u, c, root, w) && Placed(s, w);
        OldChild(s, s', u, w, d);
      }
    }
    StillSealed(s, s');
  }

  /** Waiting closes the scope: everyone who worked in it is done. */
  lemma JoinSeals(s: State, u: nat)
    requires Invariant(s) && ScopesSealed(s) && CanJoin(s, u)
    ensures ScopesSealed(Join(s, u)) && StaySealed(s, Join(s, u))
  {
    var s' := Join(s, u);
    JoinShape(s, u);
    assert Placed(s, u) && ScopeOk(s, u);
    forall v | Live(s', v)
      ensures OwnerFrom(s, s', v, v)
    {
      assert Live(s, v) && Placed(s, v) && Placed(s', v);
    }
    OwnersMove(s, s');
    forall w: nat, d: nat | ClosedChild(s', w, d) && !(d < |s.tree| && ClosedChild(s, w, d))
      ensures s'.tree[d].kind != Async && Sealed(s', d)
    {
      assert Placed(s, w) && w == u && d == ScopeOf(s.places[u]);
      JoinedIsSealed(s, u);
    }
    StillSealed(s, s');
  }

  lemma JoinedIsSealed(s: State, u: nat)
    requires Shape(s) && CanJoin(s, u) && Shape(Join(s, u)) && Placed(s, u) && ScopeNodes(s, u)
    ensures Sealed(Join(s, u), ScopeOf(s.places[u]))
  {
    var s', f := Join(s, u), ScopeOf(s.places[u]);
    OwnerIsOwn(s, u);
    forall v | Live(s', v)
      ensures !StandsUnder(s', f, v)
    {
      assert Live(s, v) && Placed(s, v);
      OwnerIsOwn(s, v);
      if v != u { ScopeMember(s, u, v); }
    }
  }

  lemma FinishedSeals(s: State, u: nat)
    requires Shape(s) && ScopesSealed(s) && u in s.tasks
    ensures ScopesSealed(Finished(s, u)) && StaySealed(s, Finished(s, u))
  {
    var s' := Finished(s, u);
    FinishedShape(s, u);
    forall v | Live(s', v)
      ensures OwnerFrom(s, s', v, v)
    {
      assert Live(s, v) && Placed(s, v) && Placed(s', v);
    }
    OwnersMove(s, s');
    forall w: nat, d: nat | ClosedChild(s', w, d)
      ensures ClosedChild(s, w, d)
    {
    }
    StillSealed(s, s');
  }

  // ---------------------------------------------------------------- every action

  lemma SpawnSeals(s: State, u: nat, c: nat)
    requires ProgramOk(s) && ScopesSealed(s) && CanAct(s, u) && c !in s.tasks
    ensures ScopesSealed(DoSpawn(s, u, c)) && StaySealed(s, DoSpawn(s, u, c))
  {
    var s1 := WithScope(s, u);
    WithScopeKeeps(s, u);
    if s.places[u].fin == 0 { OpenFinSeals(s, u); }
    CanActLater(s1, u, c, false);
    var s2 := NewTask(s1, u, c, false);
    var s3 := FreshStep(s2, c);
    NewTaskShape(s1, u, c, false);
    FreshStepShape(s2, c);
    NewTaskSeals(s1, u, c, false);
    FreshStepSeals(s2, c);
    FreshStepSeals(s3, u);
    StaySealedTransitive(s, s1, s2);
    StaySealedTransitive(s, s2, s3);
    StaySealedTransitive(s, s3, FreshStep(s3, u));
  }

  lemma RunRootSeals(s: State, u: nat, c: nat)
    requires Shape(s) && ScopesSealed(s) && CanCreate(s, u, c, true)
    ensures ScopesSealed(DoRunRoot(s, u, c)) && StaySealed(s, DoRunRoot(s, u, c))
  {
    CanActLater(s, u, c, true);
    var s2 := NewTask(s, u, c, true);
    NewTaskShape(s, u, c, true);
    NewTaskSeals(s, u, c, true);
    FreshStepSeals(s2, c);
    StaySealedTransitive(s, s2, FreshStep(s2, c));
  }

  lemma WaitSeals(s: State, u: nat)
    requires Invariant(s) && ScopesSealed(s) && CanJoin(s, u)
    ensures ScopesSealed(DoWait(s, u)) && StaySealed(s, DoWait(s, u))
  {
    var s1 := Join(s, u);
    JoinShape(s, u);
    JoinSeals(s, u);
    if CanAct(s1, u) {
      FreshStepSeals(s1, u);
      StaySealedTransitive(s, s1, FreshStep(s1, u));
    }
  }

  /** Whatever the program does, what was over stays over. */
  lemma DoSeals(sys: System, a: Action)
    requires SystemOk(sys) && ScopesSealed(sys.program) && May(sys, a)
    ensures ScopesSealed(Do(sys, a).program) && StaySealed(sys.program, Do(sys, a).program)
  {
    var p, u := sys.program, Actor(sys, a.thread);
    match a
    case Spawn(th, c) => SpawnSeals(p, u, c);
    case RunRoot(th, c) => RunRootSeals(p, u, c);
    case RootDone(th) => JoinSeals(p, u);
    case Start(th, c) =>
    case Wait(th) => WaitSeals(p, u);
    case End(th) => FinishedSeals(p, u);
  }

  lemma BeginSealed()
    ensures ScopesSealed(Begin().program)
  {
  }
}
