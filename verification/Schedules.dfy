/** What parallelism means: the legal sequential runs of an async-finish program.
    Two steps are parallel in the tree exactly when some legal run executes the first
    before the second and some other legal run executes them the other way round. */
module Schedules {
  import opened Common
  import opened Dpst

  // ---------------------------------------------------------------- orders on finite sets

  ghost predicate StrictOrder(s: set<nat>, lt: (nat, nat) -> bool) {
    && (forall x | x in s :: !lt(x, x))
    && (forall x, y, z | x in s && y in s && z in s && lt(x, y) && lt(y, z) :: lt(x, z))
  }

  ghost predicate Enumerates(run: seq<nat>, s: set<nat>) {
    && (forall x :: x in run <==> x in s)
    && (forall i, j | 0 <= i < j < |run| :: run[i] != run[j])
  }

  ghost predicate Respects(run: seq<nat>, lt: (nat, nat) -> bool) {
    forall i, j | 0 <= i < j < |run| :: !lt(run[j], run[i])
  }

  lemma {:induction false} MinimalElement(s: set<nat>, lt: (nat, nat) -> bool) returns (m: nat)
    requires StrictOrder(s, lt) && s != {}
    ensures m in s && forall x | x in s :: !lt(x, m)
    decreases |s|
  {
    var first :| first in s;
    var below := set x | x in s && lt(x, first);
    if below == {} {
      m := first;
      forall x | x in s
        ensures !lt(x, m)
      {
        assert x !in below;
      }
    } else {
      assert below <= s - {first};
      SubsetSmaller(below, s - {first});
      m := MinimalElement(below, lt);
      forall x | x in s
        ensures !lt(x, m)
      {
        assert lt(x, m) ==> lt(x, first) && x in below;
      }
    }
  }

  /** Every strict order on a finite set has a linear extension. */
  lemma {:induction false} LinearExtension(s: set<nat>, lt: (nat, nat) -> bool) returns (run: seq<nat>)
    requires StrictOrder(s, lt)
    ensures Enumerates(run, s) && Respects(run, lt)
    decreases |s|
  {
    if s == {} {
      run := [];
    } else {
      var m := MinimalElement(s, lt);
      var rest := LinearExtension(s - {m}, lt);
      run := [m] + rest;
      assert forall x :: x in run <==> x == m || x in rest;
      forall i, j | 0 <= i < j < |run|
        ensures run[i] != run[j] && !lt(run[j], run[i])
      {
        assert run[j] == rest[j - 1] && rest[j - 1] in s - {m};
      }
    }
  }

  /** The order in which, in addition, `a` comes before `b`. */
  ghost function Ordering(lt: (nat, nat) -> bool, a: nat, b: nat): (nat, nat) -> bool {
    (x: nat, y: nat) => lt(x, y) || ((x == a || lt(x, a)) && (y == b || lt(b, y)))
  }

  lemma OrderingIsStrict(s: set<nat>, lt: (nat, nat) -> bool, a: nat, b: nat)
    requires StrictOrder(s, lt) && a in s && b in s && a != b && !lt(b, a)
    ensures StrictOrder(s, Ordering(lt, a, b))
  {
  }

  // ---------------------------------------------------------------- legal runs

  ghost function StepsOf(t: Tree): set<nat> {
    set n: nat | n < |t| && IsStep(t, n)
  }

  /** A legal run executes every step once, and everything under a child that is not an
      ASYNC before everything under that child's later siblings. */
  ghost predicate LegalRun(t: Tree, run: seq<nat>)
    requires Rooted(t)
  {
    && Enumerates(run, StepsOf(t))
    && (forall i | 0 <= i < |run| :: IsStep(t, run[i]))
    && forall c: nat, d: nat, i, j | 0 <= i < |run| && 0 <= j < |run| && Splits(t, c, d, run[i], run[j]) :: i < j
  }

  ghost predicate RunsBefore(run: seq<nat>, a: nat, b: nat) {
    exists i, j :: 0 <= i < j < |run| && run[i] == a && run[j] == b
  }

  ghost predicate SomeRunOrders(t: Tree, a: nat, b: nat)
    requires Rooted(t)
  {
    exists run :: LegalRun(t, run) && RunsBefore(run, a, b)
  }

  ghost function StepOrder(t: Tree): (nat, nat) -> bool
    requires Rooted(t)
  {
    (x: nat, y: nat) => IsStep(t, x) && IsStep(t, y) && Precedes(t, x, y)
  }

  lemma StepOrderIsStrict(t: Tree)
    requires WellFormed(t)
    ensures StrictOrder(StepsOf(t), StepOrder(t))
  {
    var s, lt := StepsOf(t), StepOrder(t);
    forall x | x in s
      ensures !lt(x, x)
    {
      PrecedesIrreflexive(t, x);
    }
    forall x, y, z | x in s && y in s && z in s && lt(x, y) && lt(y, z)
      ensures lt(x, z)
    {
      PrecedesTransitive(t, x, y, z);
    }
  }

  lemma RespectingRunIsLegal(t: Tree, run: seq<nat>)
    requires WellFormed(t) && Enumerates(run, StepsOf(t)) && Respects(run, StepOrder(t))
    ensures LegalRun(t, run)
  {
    forall i | 0 <= i < |run|
      ensures IsStep(t, run[i])
    {
      assert run[i] in run;
    }
    forall c: nat, d: nat, i, j | 0 <= i < |run| && 0 <= j < |run| && Splits(t, c, d, run[i], run[j])
      ensures i < j
    {
      assert StepOrder(t)(run[i], run[j]);
      if i == j {
        PrecedesIrreflexive(t, run[i]);
      }
    }
  }

  lemma LegalRunKeepsOrder(t: Tree, run: seq<nat>, a: nat, b: nat)
    requires WellFormed(t) && LegalRun(t, run) && IsStep(t, a) && IsStep(t, b)
    requires Precedes(t, a, b)
    ensures !RunsBefore(run, b, a)
  {
  }

  /** Unless `b` must come first, some legal run executes `a` before `b`. */
  lemma SomeRunPuts(t: Tree, a: nat, b: nat)
    requires WellFormed(t) && IsStep(t, a) && IsStep(t, b) && a != b && !Precedes(t, b, a)
    ensures SomeRunOrders(t, a, b)
  {
    var s, lt := StepsOf(t), StepOrder(t);
    StepOrderIsStrict(t);
    OrderingIsStrict(s, lt, a, b);
    var lt' := Ordering(lt, a, b);
    var run := LinearExtension(s, lt');
    forall i, j | 0 <= i < j < |run|
      ensures !lt(run[j], run[i])
    {
      assert !lt'(run[j], run[i]);
    }
    RespectingRunIsLegal(t, run);
    assert a in run && b in run;
    var i :| 0 <= i < |run| && run[i] == a;
    var j :| 0 <= j < |run| && run[j] == b;
    assert lt'(run[i], run[j]);
  }

  /** Parallel means: either order is possible. */
  lemma ParallelIffEitherOrder(t: Tree, a: nat, b: nat)
    requires WellFormed(t) && IsStep(t, a) && IsStep(t, b)
    ensures Parallel(t, a, b) <==> a != b && SomeRunOrders(t, a, b) && SomeRunOrders(t, b, a)
  {
    if a != b && SomeRunOrders(t, a, b) && SomeRunOrders(t, b, a) {
      var run :| LegalRun(t, run) && RunsBefore(run, a, b);
      var run' :| LegalRun(t, run') && RunsBefore(run', b, a);
      if Precedes(t, a, b) { LegalRunKeepsOrder(t, run', a, b); }
      if Precedes(t, b, a) { LegalRunKeepsOrder(t, run, b, a); }
    }
    if Parallel(t, a, b) {
      SomeRunPuts(t, a, b);
      SomeRunPuts(t, b, a);
    }
  }

  /** Precedes means: no legal run executes the later step first. */
  lemma PrecedesIffForced(t: Tree, a: nat, b: nat)
    requires WellFormed(t) && IsStep(t, a) && IsStep(t, b) && a != b
    ensures Precedes(t, a, b) <==> !SomeRunOrders(t, b, a)
  {
    if Precedes(t, a, b) {
      forall run | LegalRun(t, run)
        ensures !RunsBefore(run, b, a)
      {
        LegalRunKeepsOrder(t, run, a, b);
      }
    } else {
      SomeRunPuts(t, b, a);
    }
  }
}
