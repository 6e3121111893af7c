/** The dynamic program structure tree: an append-only array of ASYNC, FINISH and STEP
    nodes.  Index 0 is the null node and index 1 the head FINISH node.  This module
    defines what the tree means (which steps are ordered, which are parallel) and proves
    the structural facts that the race detector relies on. */
module Dpst {

  datatype NodeType = NoType | Async | Finish | Step

  datatype AFTask = AFTask(
    taskId: nat,
    parent: nat,
    curStep: nat,
    kind: NodeType,
    depth: nat,
    seqNum: nat,
    numChildren: nat,
    youngNsChild: NodeType,   // kind of the youngest child that is not a STEP
    spRootAndWait: bool)

  type Tree = seq<AFTask>

  const HEAD: nat := 1

  // ---------------------------------------------------------------- well-formedness

  /** Parent links lead to smaller indices, down to the head. */
  predicate Rooted(t: Tree) {
    && |t| >= 2
    && forall n {:trigger t[n].parent} | 2 <= n < |t| :: 1 <= t[n].parent < n
  }

  predicate IsNode(t: Tree, n: nat) {
    1 <= n < |t|
  }

  predicate IsStep(t: Tree, n: nat) {
    IsNode(t, n) && t[n].kind == Step
  }

  predicate Siblings(t: Tree, c: nat, d: nat) {
    2 <= c < |t| && 2 <= d < |t| && t[c].parent == t[d].parent
  }

  /** `c` is the child of `p` that carries sequence number `k`. */
  predicate IsChildAt(t: Tree, p: nat, k: nat, c: nat) {
    2 <= c < |t| && t[c].parent == p && t[c].seqNum == k
  }

  ghost predicate HasChildAt(t: Tree, p: nat, k: nat) {
    exists c: nat :: IsChildAt(t, p, k, c)
  }

  predicate NodeOk(t: Tree, n: nat)
    requires Rooted(t) && 2 <= n < |t|
  {
    var p := t[n].parent;
    && t[n].depth == t[p].depth + 1
    && t[p].kind != Step
    && t[n].kind != NoType
    && t[n].seqNum < t[p].numChildren
  }

  /** The current step of a node, once there is one, is a STEP child of that node. */
  predicate CurStepOk(t: Tree, n: nat)
    requires IsNode(t, n)
  {
    t[n].curStep == 0 || (2 <= t[n].curStep < |t| && t[t[n].curStep].kind == Step && t[t[n].curStep].parent == n)
  }

  ghost predicate WellFormed(t: Tree) {
    && Rooted(t)
    && t[HEAD].kind == Finish && t[HEAD].depth == 0
    && (forall n | 2 <= n < |t| :: NodeOk(t, n))
    && (forall n | 1 <= n < |t| :: CurStepOk(t, n))
    // STEP nodes are leaves
    && (forall n | 1 <= n < |t| && t[n].kind == Step :: t[n].numChildren == 0)
    // siblings are numbered in creation order, without gaps
    && (forall c: nat, d: nat | Siblings(t, c, d) && c < d :: t[c].seqNum < t[d].seqNum)
    && (forall p: nat, k: nat | 1 <= p < |t| && k < t[p].numChildren :: HasChildAt(t, p, k))
  }

  // ---------------------------------------------------------------- ancestors

  predicate IsAncestor(t: Tree, x: nat, n: nat): (r: bool)
    requires Rooted(t) && IsNode(t, n)
    ensures r ==> x <= n && 1 <= x
    decreases n
  {
    x == n || (n > HEAD && IsAncestor(t, x, t[n].parent))
  }

  lemma {:induction false} AncestorTransitive(t: Tree, x: nat, y: nat, z: nat)
    requires Rooted(t) && IsNode(t, z) && IsNode(t, y)
    requires IsAncestor(t, x, y) && IsAncestor(t, y, z)
    ensures IsAncestor(t, x, z)
    decreases z
  {
    if y != z {
      AncestorTransitive(t, x, y, t[z].parent);
    }
  }

  /** The ancestors of a node form a chain, ordered by index. */
  lemma {:induction false} AncestorsComparable(t: Tree, x: nat, y: nat, n: nat)
    requires Rooted(t) && IsNode(t, n)
    requires IsAncestor(t, x, n) && IsAncestor(t, y, n) && x <= y
    ensures IsAncestor(t, x, y)
    decreases n
  {
    if y != n {
      AncestorsComparable(t, x, y, t[n].parent);
    }
  }

  lemma {:induction false} AncestorDepth(t: Tree, x: nat, n: nat)
    requires WellFormed(t) && IsNode(t, n) && IsAncestor(t, x, n)
    ensures t[x].depth <= t[n].depth
    ensures t[x].depth == t[n].depth ==> x == n
    decreases n
  {
    if x != n {
      assert NodeOk(t, n);
      AncestorDepth(t, x, t[n].parent);
    }
  }

  /** Of two ancestors of one node, the shallower is an ancestor of the deeper. */
  lemma {:induction false} AncestorsByDepth(t: Tree, x: nat, y: nat, n: nat)
    requires WellFormed(t) && IsNode(t, n)
    requires IsAncestor(t, x, n) && IsAncestor(t, y, n) && t[x].depth <= t[y].depth
    ensures IsAncestor(t, x, y)
  {
    if x <= y {
      AncestorsComparable(t, x, y, n);
    } else {
      AncestorsComparable(t, y, x, n);
      AncestorDepth(t, y, x);
    }
  }

  lemma {:induction false} SiblingSubtreesDisjoint(t: Tree, c: nat, d: nat, n: nat)
    requires Rooted(t) && IsNode(t, n) && Siblings(t, c, d)
    requires IsAncestor(t, c, n) && IsAncestor(t, d, n)
    ensures c == d
  {
    if c < d {
      AncestorsComparable(t, c, d, n);
    } else if d < c {
      AncestorsComparable(t, d, c, n);
    }
  }

  lemma {:induction false} StepHasNoDescendants(t: Tree, s: nat, n: nat)
    requires WellFormed(t) && IsStep(t, s) && IsNode(t, n) && IsAncestor(t, s, n)
    ensures n == s
    decreases n
  {
    if n != s {
      assert NodeOk(t, n);
      StepHasNoDescendants(t, s, t[n].parent);
    }
  }

  /** The child of `l` on the path from `l` down to `n`. */
  function ChildToward(t: Tree, l: nat, n: nat): (c: nat)
    requires Rooted(t) && IsNode(t, n) && IsAncestor(t, l, n) && l != n
    ensures 2 <= c < |t| && t[c].parent == l && IsAncestor(t, c, n)
    decreases n
  {
    if t[n].parent == l then n else ChildToward(t, l, t[n].parent)
  }

  // ---------------------------------------------------------------- lowest common ancestor

  ghost predicate IsLca(t: Tree, l: nat, a: nat, b: nat)
    requires Rooted(t) && IsNode(t, a) && IsNode(t, b)
  {
    && IsAncestor(t, l, a) && IsAncestor(t, l, b)
    && forall c: nat | IsAncestor(t, c, a) && IsAncestor(t, c, b) :: c <= l
  }

  function Lca(t: Tree, a: nat, b: nat): (l: nat)
    requires Rooted(t) && IsNode(t, a) && IsNode(t, b)
    ensures IsAncestor(t, l, a) && IsAncestor(t, l, b)
    decreases a + b
  {
    if a == b then a
    else if a > b then Lca(t, t[a].parent, b)
    else Lca(t, a, t[b].parent)
  }

  /** `Lca` is the lowest common ancestor: every common ancestor is an ancestor of it. */
  lemma {:induction false} LcaIsLowest(t: Tree, a: nat, b: nat, c: nat)
    requires Rooted(t) && IsNode(t, a) && IsNode(t, b)
    requires IsAncestor(t, c, a) && IsAncestor(t, c, b)
    ensures IsAncestor(t, c, Lca(t, a, b))
    decreases a + b
  {
    if a > b {
      LcaIsLowest(t, t[a].parent, b, c);
    } else if a < b {
      LcaIsLowest(t, a, t[b].parent, c);
    }
  }

  lemma {:induction false} LcaUnique(t: Tree, l: nat, a: nat, b: nat)
    requires Rooted(t) && IsNode(t, a) && IsNode(t, b) && IsLca(t, l, a, b)
    ensures l == Lca(t, a, b)
  {
    LcaIsLowest(t, a, b, l);
  }

  lemma {:induction false} LcaIsLca(t: Tree, a: nat, b: nat)
    requires Rooted(t) && IsNode(t, a) && IsNode(t, b)
    ensures IsLca(t, Lca(t, a, b), a, b)
  {
    forall c: nat | IsAncestor(t, c, a) && IsAncestor(t, c, b)
      ensures c <= Lca(t, a, b)
    {
      LcaIsLowest(t, a, b, c);
    }
  }

  lemma {:induction false} LcaSymmetric(t: Tree, a: nat, b: nat)
    requires Rooted(t) && IsNode(t, a) && IsNode(t, b)
    ensures Lca(t, a, b) == Lca(t, b, a)
  {
    LcaIsLca(t, b, a);
    LcaUnique(t, Lca(t, b, a), a, b);
  }

  // ---------------------------------------------------------------- order and parallelism

  /** `c` and `d` witness that everything under `c` runs before everything under `d`:
      they are siblings, `c` comes first and is not an ASYNC. */
  predicate Splits(t: Tree, c: nat, d: nat, a: nat, b: nat)
    requires Rooted(t) && IsNode(t, a) && IsNode(t, b)
  {
    && Siblings(t, c, d) && t[c].seqNum < t[d].seqNum && t[c].kind != Async
    && IsAncestor(t, c, a) && IsAncestor(t, d, b)
  }

  /** The async-finish program runs `a` before `b`. */
  ghost predicate Precedes(t: Tree, a: nat, b: nat)
    requires Rooted(t) && IsNode(t, a) && IsNode(t, b)
  {
    exists c: nat, d: nat :: Splits(t, c, d, a, b)
  }

  /** Two nodes are parallel when the program leaves them unordered. */
  ghost predicate Parallel(t: Tree, a: nat, b: nat)
    requires Rooted(t) && IsNode(t, a) && IsNode(t, b)
  {
    a != b && !Precedes(t, a, b) && !Precedes(t, b, a)
  }

  lemma ParallelSymmetric(t: Tree, a: nat, b: nat)
    requires Rooted(t) && IsNode(t, a) && IsNode(t, b)
    ensures Parallel(t, a, b) == Parallel(t, b, a)
  {
  }

  lemma PrecedesIrreflexive(t: Tree, a: nat)
    requires Rooted(t) && IsNode(t, a)
    ensures !Precedes(t, a, a)
  {
    forall c: nat, d: nat | Splits(t, c, d, a, a)
      ensures false
    {
      SiblingSubtreesDisjoint(t, c, d, a);
    }
  }

  lemma PrecedesTransitive(t: Tree, a: nat, b: nat, e: nat)
    requires Rooted(t) && IsNode(t, a) && IsNode(t, b) && IsNode(t, e)
    requires Precedes(t, a, b) && Precedes(t, b, e)
    ensures Precedes(t, a, e)
  {
    var c1: nat, d1: nat :| Splits(t, c1, d1, a, b);
    var c2: nat, d2: nat :| Splits(t, c2, d2, b, e);
    if d1 == c2 {
      assert Splits(t, c1, d2, a, e);
    } else if d1 < c2 {
      AncestorsComparable(t, d1, c2, b);
      AncestorTransitive(t, d1, t[d2].parent, d2);
      AncestorTransitive(t, d1, d2, e);
      assert Splits(t, c1, d1, a, e);
    } else {
      AncestorsComparable(t, c2, d1, b);
      AncestorTransitive(t, c2, t[c1].parent, c1);
      AncestorTransitive(t, c2, c1, a);
      assert Splits(t, c2, d2, a, e);
    }
  }

  /** Whether `a` precedes `b` is decided at the two children of their lowest common
      ancestor: the left one must not be an ASYNC. */
  lemma {:induction false} PrecedesAtLca(t: Tree, l: nat, ca: nat, cb: nat, a: nat, b: nat)
    requires Rooted(t) && IsNode(t, a) && IsNode(t, b)
    requires Siblings(t, ca, cb) && ca != cb && t[ca].parent == l
    requires IsAncestor(t, ca, a) && IsAncestor(t, cb, b)
    ensures l == Lca(t, a, b)
    ensures Precedes(t, a, b) <==> t[ca].seqNum < t[cb].seqNum && t[ca].kind != Async
  {
    if t[ca].seqNum < t[cb].seqNum && t[ca].kind != Async {
      assert Splits(t, ca, cb, a, b);
    }
    forall c: nat, d: nat | Splits(t, c, d, a, b)
      ensures c == ca && d == cb
    {
      MeetingPointUnique(t, c, d, ca, cb, a, b);
    }
    AncestorTransitive(t, l, ca, a);
    AncestorTransitive(t, l, cb, b);
    LcaIsLowest(t, a, b, l);
    var m := Lca(t, a, b);
    if m != l {
      var k := ChildToward(t, l, m);
      AncestorTransitive(t, k, m, a);
      AncestorTransitive(t, k, m, b);
      SiblingSubtreesDisjoint(t, k, ca, a);
      SiblingSubtreesDisjoint(t, k, cb, b);
    }
  }

  /** Two nodes part at exactly one pair of siblings. */
  lemma {:induction false} MeetingPointUnique(t: Tree, c: nat, d: nat, c': nat, d': nat, a: nat, b: nat)
    requires Rooted(t) && IsNode(t, a) && IsNode(t, b)
    requires Siblings(t, c, d) && c != d && IsAncestor(t, c, a) && IsAncestor(t, d, b)
    requires Siblings(t, c', d') && c' != d' && IsAncestor(t, c', a) && IsAncestor(t, d', b)
    ensures c == c' && d == d'
  {
    if t[c].parent == t[c'].parent {
      SiblingSubtreesDisjoint(t, c, c', a);
      SiblingSubtreesDisjoint(t, d, d', b);
    } else {
      PartBelow(t, c, d, c', d', a, b);
      PartBelow(t, c', d', c, d, a, b);
    }
  }

  lemma {:induction false} PartBelow(t: Tree, c: nat, d: nat, c': nat, d': nat, a: nat, b: nat)
    requires Rooted(t) && IsNode(t, a) && IsNode(t, b)
    requires Siblings(t, c, d) && c != d && IsAncestor(t, c, a) && IsAncestor(t, d, b)
    requires Siblings(t, c', d') && c' != d' && IsAncestor(t, c', a) && IsAncestor(t, d', b)
    requires t[c].parent != t[c'].parent
    ensures !(t[c].parent < t[c'].parent)
  {
    var p, p' := t[c].parent, t[c'].parent;
    if p < p' {
      AncestorTransitive(t, p, c, a);
      AncestorTransitive(t, p', c', a);
      AncestorTransitive(t, p', d', b);
      AncestorsComparable(t, p, p', a);
      var k := ChildToward(t, p, p');
      AncestorTransitive(t, k, p', a);
      AncestorTransitive(t, k, p', b);
      SiblingSubtreesDisjoint(t, k, c, a);
      SiblingSubtreesDisjoint(t, k, d, b);
    }
  }

  /** A step outside the subtree of `l` stands in the same relation to every node inside it. */
  lemma {:induction false} OutsideSameRelation(t: Tree, l: nat, x: nat, y: nat, s: nat)
    requires Rooted(t) && IsNode(t, x) && IsNode(t, y) && IsNode(t, s)
    requires IsAncestor(t, l, x) && IsAncestor(t, l, y) && !IsAncestor(t, l, s)
    ensures Precedes(t, x, s) == Precedes(t, y, s)
    ensures Precedes(t, s, x) == Precedes(t, s, y)
    ensures Parallel(t, x, s) == Parallel(t, y, s)
  {
    OutsideCarries(t, l, x, y, s);
    OutsideCarries(t, l, y, x, s);
  }

  lemma {:induction false} OutsideCarries(t: Tree, l: nat, x: nat, y: nat, s: nat)
    requires Rooted(t) && IsNode(t, x) && IsNode(t, y) && IsNode(t, s)
    requires IsAncestor(t, l, x) && IsAncestor(t, l, y) && !IsAncestor(t, l, s)
    ensures Precedes(t, x, s) ==> Precedes(t, y, s)
    ensures Precedes(t, s, x) ==> Precedes(t, s, y)
  {
    if Precedes(t, x, s) {
      var c: nat, d: nat :| Splits(t, c, d, x, s);
      AboveOutside(t, l, c, d, x, s);
      AncestorTransitive(t, c, l, y);
      assert Splits(t, c, d, y, s);
    }
    if Precedes(t, s, x) {
      var c: nat, d: nat :| Splits(t, c, d, s, x);
      AboveOutside(t, l, d, c, x, s);
      AncestorTransitive(t, d, l, y);
      assert Splits(t, c, d, s, y);
    }
  }

  lemma {:induction false} AboveOutside(t: Tree, l: nat, c: nat, d: nat, x: nat, s: nat)
    requires Rooted(t) && IsNode(t, x) && IsNode(t, s)
    requires IsAncestor(t, l, x) && !IsAncestor(t, l, s)
    requires Siblings(t, c, d) && IsAncestor(t, c, x) && IsAncestor(t, d, s)
    ensures IsAncestor(t, c, l)
  {
    if l < c {
      AncestorsComparable(t, l, c, x);
      AncestorTransitive(t, l, t[d].parent, d);
      AncestorTransitive(t, l, d, s);
    } else {
      AncestorsComparable(t, c, l, x);
    }
  }

  /** If two parallel steps meet at `l`, a step inside the subtree of `l` that precedes
      neither of them is one of them or is parallel to one of them. */
  lemma {:induction false} InsideParallelToOne(t: Tree, x: nat, y: nat, s: nat)
    requires WellFormed(t) && IsStep(t, x) && IsStep(t, y) && IsStep(t, s)
    requires Parallel(t, x, y) && IsAncestor(t, Lca(t, x, y), s)
    requires !Precedes(t, s, x) && !Precedes(t, s, y)
    ensures Parallel(t, s, x) || Parallel(t, s, y)
  {
    ParallelSymmetric(t, x, y);
    var l := Lca(t, x, y);
    LcaSymmetric(t, x, y);
    StepsMeetAbove(t, x, y);
    var cx, cy := ChildToward(t, l, x), ChildToward(t, l, y);
    if s != x && s != y {
      StepsMeetAbove(t, s, x);
      if l == s { StepHasNoDescendants(t, s, x); }
      var cs := ChildToward(t, l, s);
      if t[cx].seqNum < t[cy].seqNum {
        InsideLeftmost(t, l, cx, cy, cs, x, y, s);
      } else {
        InsideLeftmost(t, l, cy, cx, cs, y, x, s);
      }
    }
  }

  lemma {:induction false} InsideLeftmost(t: Tree, l: nat, cx: nat, cy: nat, cs: nat, x: nat, y: nat, s: nat)
    requires WellFormed(t) && IsStep(t, x) && IsStep(t, y) && IsStep(t, s)
    requires Parallel(t, x, y) && s != x && s != y
    requires Siblings(t, cx, cy) && Siblings(t, cx, cs) && t[cx].parent == l
    requires IsAncestor(t, cx, x) && IsAncestor(t, cy, y) && IsAncestor(t, cs, s)
    requires cx != cy && t[cx].seqNum < t[cy].seqNum
    requires !Precedes(t, s, x) && !Precedes(t, s, y)
    ensures Parallel(t, s, x) || Parallel(t, s, y)
  {
    PrecedesAtLca(t, l, cx, cy, x, y);
    assert t[cx].kind == Async;
    if cs == cx {
      PrecedesAtLca(t, l, cs, cy, s, y);
      PrecedesAtLca(t, l, cy, cs, y, s);
    } else {
      PrecedesAtLca(t, l, cx, cs, x, s);
    }
  }

  /** Distinct steps meet at a node above both, at distinct children. */
  lemma {:induction false} StepsMeetAbove(t: Tree, a: nat, b: nat)
    requires WellFormed(t) && IsStep(t, a) && IsStep(t, b) && a != b
    ensures var l := Lca(t, a, b);
            && l != a && l != b
            && ChildToward(t, l, a) != ChildToward(t, l, b)
            && t[ChildToward(t, l, a)].seqNum != t[ChildToward(t, l, b)].seqNum
  {
    var l := Lca(t, a, b);
    if l == a { StepHasNoDescendants(t, a, b); }
    if l == b { StepHasNoDescendants(t, b, a); }
    var ca, cb := ChildToward(t, l, a), ChildToward(t, l, b);
    if ca == cb {
      LcaIsLowest(t, a, b, ca);
    }
    assert Siblings(t, ca, cb);
    assert Siblings(t, cb, ca);
  }

  // ---------------------------------------------------------------- one task is sequential

  /** A base is the topmost node of its task: the head, or a node whose parent belongs
      to another task. */
  predicate IsBase(t: Tree, n: nat)
    requires Rooted(t) && IsNode(t, n)
  {
    n == HEAD || t[n].taskId != t[t[n].parent].taskId
  }

  /** The nodes of one task form one connected region: a task has a single base, only
      bases are ASYNC, and the bases of other tasks have fresh identifiers. */
  ghost predicate TasksConnected(t: Tree)
    requires Rooted(t)
  {
    && (forall n {:trigger t[n].kind} | 1 <= n < |t| && t[n].kind == Async :: IsBase(t, n))
    && (forall m, n {:trigger IsBase(t, m), IsBase(t, n)} | 1 <= m < |t| && 1 <= n < |t| && IsBase(t, m) && IsBase(t, n) && t[m].taskId == t[n].taskId :: m == n)
  }

  function BaseOf(t: Tree, n: nat): (b: nat)
    requires Rooted(t) && IsNode(t, n)
    ensures IsAncestor(t, b, n) && IsBase(t, b) && t[b].taskId == t[n].taskId
    decreases n
  {
    if IsBase(t, n) then n else BaseOf(t, t[n].parent)
  }

  lemma {:induction false} BelowBase(t: Tree, x: nat, n: nat)
    requires Rooted(t) && IsNode(t, n)
    requires IsAncestor(t, x, n) && IsAncestor(t, BaseOf(t, n), x) && x != BaseOf(t, n)
    ensures !IsBase(t, x)
    decreases n
  {
    if x != n {
      BelowBase(t, x, t[n].parent);
    }
  }

  /** Two steps of one task are never parallel: this justifies the task-id shortcut. */
  lemma SameTaskNotParallel(t: Tree, a: nat, b: nat)
    requires WellFormed(t) && TasksConnected(t) && IsStep(t, a) && IsStep(t, b)
    requires t[a].taskId == t[b].taskId
    ensures !Parallel(t, a, b)
  {
    if a != b {
      var base := BaseOf(t, a);
      assert base == BaseOf(t, b);
      var l := Lca(t, a, b);
      LcaIsLowest(t, a, b, base);
      StepsMeetAbove(t, a, b);
      var ca, cb := ChildToward(t, l, a), ChildToward(t, l, b);
      AncestorTransitive(t, base, l, ca);
      AncestorTransitive(t, base, l, cb);
      BelowBase(t, ca, a);
      BelowBase(t, cb, b);
      PrecedesAtLca(t, l, ca, cb, a, b);
      PrecedesAtLca(t, l, cb, ca, b, a);
    }
  }

  // ---------------------------------------------------------------- growth

  /** The fields that are never written again once a node has been created. */
  predicate SameStructure(x: AFTask, y: AFTask) {
    && x.taskId == y.taskId && x.parent == y.parent && x.kind == y.kind
    && x.depth == y.depth && x.seqNum == y.seqNum && x.spRootAndWait == y.spRootAndWait
  }

  ghost predicate Extends(t: Tree, u: Tree) {
    |t| <= |u| && forall n | 0 <= n < |t| :: SameStructure(t[n], u[n])
  }

  lemma {:induction false} AncestorStable(t: Tree, u: Tree, x: nat, n: nat)
    requires Rooted(t) && Rooted(u) && Extends(t, u) && IsNode(t, n)
    ensures IsAncestor(t, x, n) == IsAncestor(u, x, n)
    decreases n
  {
    assert SameStructure(t[n], u[n]);
    if n != HEAD {
      AncestorStable(t, u, x, t[n].parent);
    }
  }

  /** Growing the tree changes no relation between nodes that already exist. */
  lemma RelationsStable(t: Tree, u: Tree, a: nat, b: nat)
    requires Rooted(t) && Rooted(u) && Extends(t, u) && IsNode(t, a) && IsNode(t, b)
    ensures Precedes(t, a, b) == Precedes(u, a, b)
    ensures Parallel(t, a, b) == Parallel(u, a, b)
  {
    PrecedesStable(t, u, a, b);
    PrecedesStable(t, u, b, a);
  }

  lemma PrecedesStable(t: Tree, u: Tree, a: nat, b: nat)
    requires Rooted(t) && Rooted(u) && Extends(t, u) && IsNode(t, a) && IsNode(t, b)
    ensures Precedes(t, a, b) == Precedes(u, a, b)
  {
    forall c: nat, d: nat
      ensures Splits(t, c, d, a, b) == Splits(u, c, d, a, b)
    {
      AncestorStable(t, u, c, a);
      AncestorStable(t, u, d, b);
      if Splits(t, c, d, a, b) || Splits(u, c, d, a, b) {
        assert SameStructure(t[c], u[c]) && SameStructure(t[d], u[d]);
      }
    }
  }

  lemma {:induction false} LcaStable(t: Tree, u: Tree, a: nat, b: nat)
    requires Rooted(t) && Rooted(u) && Extends(t, u) && IsNode(t, a) && IsNode(t, b)
    ensures Lca(t, a, b) == Lca(u, a, b)
  {
    var l := Lca(t, a, b);
    LcaIsLca(t, a, b);
    AncestorStable(t, u, l, a);
    AncestorStable(t, u, l, b);
    forall c: nat | IsAncestor(u, c, a) && IsAncestor(u, c, b)
      ensures c <= l
    {
      AncestorStable(t, u, c, a);
      AncestorStable(t, u, c, b);
    }
    LcaUnique(u, l, a, b);
  }

  lemma ExtendsTransitive(t: Tree, u: Tree, v: Tree)
    requires Extends(t, u) && Extends(u, v)
    ensures Extends(t, v)
  {
  }
}
