/** Where a task stands in the tree.  A running task appends children to one node, its
    owner; the steps already ordered before its next step are those that are "ahead" of a
    fresh child of the owner.  This module computes how that set changes when a node is added. */
module Ahead {
  import opened Dpst
  import opened Capture

  /** `x` lies under a child of `o` that is not an ASYNC. */
  predicate UnderOrderedChild(t: Tree, x: nat, o: nat)
    requires Rooted(t) && IsNode(t, x) && IsNode(t, o)
  {
    x != o && IsAncestor(t, o, x) && t[ChildToward(t, o, x)].kind != Async
  }

  /** `x` runs before whatever is appended to `o` next. */
  ghost predicate AheadOf(t: Tree, x: nat, o: nat)
    requires Rooted(t) && IsNode(t, x) && IsNode(t, o)
  {
    Precedes(t, x, o) || UnderOrderedChild(t, x, o)
  }

  /** The tree `u` is `t` with one more node, the last child of `p`. */
  ghost predicate Appended(t: Tree, u: Tree, p: nat) {
    && WellFormed(t) && WellFormed(u) && Extends(t, u)
    && |u| == |t| + 1 && IsNode(t, p) && u[|t|].parent == p
  }

  lemma AddChildAppends(t: Tree, p: nat, kind: NodeType, taskId: nat, root: bool)
    requires WellFormed(t) && StructuralNode(t, p) && kind != NoType
    ensures Appended(t, AddChild(t, p, kind, taskId, root), p)
  {
    AddChildKeepsWellFormed(t, p, kind, taskId, root);
  }

  lemma NotAheadOfItself(t: Tree, x: nat)
    requires Rooted(t) && IsNode(t, x)
    ensures !AheadOf(t, x, x)
  {
    PrecedesIrreflexive(t, x);
  }

  lemma {:induction false} ChildTowardStable(t: Tree, u: Tree, l: nat, n: nat)
    requires Rooted(t) && Rooted(u) && Extends(t, u) && IsNode(t, n) && IsAncestor(t, l, n) && l != n
    ensures IsAncestor(u, l, n) && ChildToward(u, l, n) == ChildToward(t, l, n)
    decreases n
  {
    AncestorStable(t, u, l, n);
    assert SameStructure(t[n], u[n]);
    if t[n].parent != l {
      ChildTowardStable(t, u, l, t[n].parent);
    }
  }

  lemma AheadStable(t: Tree, u: Tree, x: nat, o: nat)
    requires Rooted(t) && Rooted(u) && Extends(t, u) && IsNode(t, x) && IsNode(t, o)
    ensures AheadOf(t, x, o) == AheadOf(u, x, o)
  {
    RelationsStable(t, u, x, o);
    AncestorStable(t, u, o, x);
    if x != o && IsAncestor(t, o, x) {
      ChildTowardStable(t, u, o, x);
      assert SameStructure(t[ChildToward(t, o, x)], u[ChildToward(t, o, x)]);
    }
  }

  /** The ancestors of the new node are itself and the ancestors of its parent. */
  lemma {:induction false} NewNodeAncestors(t: Tree, u: Tree, p: nat, x: nat)
    requires Appended(t, u, p) && IsNode(u, x)
    ensures IsAncestor(u, x, |t|) <==> x == |t| || (x < |t| && IsAncestor(t, x, p))
  {
    AncestorStable(t, u, x, p);
  }

  /** The new node comes after all its siblings. */
  lemma NewNodeIsLast(t: Tree, u: Tree, p: nat, c: nat)
    requires Appended(t, u, p) && Siblings(u, c, |t|) && c != |t|
    ensures u[c].seqNum < u[|t|].seqNum
  {
  }

  /** What precedes the new node is what was ahead of its parent. */
  lemma PrecedesNewNode(t: Tree, u: Tree, p: nat, x: nat)
    requires Appended(t, u, p) && IsNode(t, x)
    ensures Precedes(u, x, |t|) <==> AheadOf(t, x, p)
  {
    var n := |t|;
    if UnderOrderedChild(t, x, p) {
      var c := ChildToward(t, p, x);
      AncestorStable(t, u, c, x);
      assert SameStructure(t[c], u[c]);
      NewNodeIsLast(t, u, p, c);
      assert Splits(u, c, n, x, n);
    }
    if Precedes(t, x, p) {
      var c: nat, d: nat :| Splits(t, c, d, x, p);
      AncestorStable(t, u, c, x);
      assert SameStructure(t[c], u[c]) && SameStructure(t[d], u[d]);
      NewNodeAncestors(t, u, p, d);
      assert Splits(u, c, d, x, n);
    }
    if Precedes(u, x, n) {
      var c: nat, d: nat :| Splits(u, c, d, x, n);
      AncestorStable(t, u, c, x);
      assert SameStructure(t[c], u[c]);
      NewNodeAncestors(t, u, p, d);
      if d == n {
        AncestorTransitive(t, p, c, x);
        SiblingSubtreesDisjoint(t, c, ChildToward(t, p, x), x);
      } else {
        assert SameStructure(t[d], u[d]);
        assert Splits(t, c, d, x, p);
      }
    }
  }

  /** The new node precedes what its parent preceded. */
  lemma NewNodePrecedes(t: Tree, u: Tree, p: nat, y: nat)
    requires Appended(t, u, p) && IsNode(t, y)
    ensures Precedes(u, |t|, y) <==> Precedes(t, p, y)
  {
    var n := |t|;
    if Precedes(t, p, y) {
      var c: nat, d: nat :| Splits(t, c, d, p, y);
      AncestorStable(t, u, d, y);
      assert SameStructure(t[c], u[c]) && SameStructure(t[d], u[d]);
      NewNodeAncestors(t, u, p, c);
      assert Splits(u, c, d, n, y);
    }
    if Precedes(u, n, y) {
      var c: nat, d: nat :| Splits(u, c, d, n, y);
      AncestorStable(t, u, d, y);
      NewNodeAncestors(t, u, p, c);
      if c == n {
        NewNodeIsLast(t, u, p, d);
      } else {
        assert SameStructure(t[c], u[c]) && SameStructure(t[d], u[d]);
        assert Splits(t, c, d, p, y);
      }
    }
  }

  /** The new node is ahead of an old owner if its parent was, or if it hangs there in order. */
  lemma NewNodeAhead(t: Tree, u: Tree, p: nat, o: nat)
    requires Appended(t, u, p) && IsNode(t, o)
    ensures AheadOf(u, |t|, o) <==> AheadOf(t, p, o) || (o == p && u[|t|].kind != Async)
  {
    var n := |t|;
    NewNodePrecedes(t, u, p, o);
    NewNodeAncestors(t, u, p, o);
    if IsAncestor(t, o, p) && o != p {
      ChildTowardStable(t, u, o, p);
      assert SameStructure(t[ChildToward(t, o, p)], u[ChildToward(t, o, p)]);
    }
    if o == p {
      NotAheadOfItself(t, p);
    }
  }

  /** What is ahead of the new node is what was ahead of its parent; it has no children yet. */
  lemma AheadOfNewNode(t: Tree, u: Tree, p: nat, x: nat)
    requires Appended(t, u, p) && IsNode(t, x)
    ensures AheadOf(u, x, |t|) <==> AheadOf(t, x, p)
  {
    PrecedesNewNode(t, u, p, x);
  }

  /** Moving up from inside an ordered child keeps everything that was ahead, ahead. */
  lemma {:induction false} AheadFromInside(t: Tree, x: nat, o: nat, f: nat)
    requires WellFormed(t) && IsNode(t, x) && IsNode(t, o) && 2 <= f < |t|
    requires t[f].kind != Async && IsAncestor(t, f, o) && AheadOf(t, x, o)
    ensures AheadOf(t, x, t[f].parent)
  {
    var p := t[f].parent;
    if IsAncestor(t, f, x) {
      InsideIsUnder(t, x, f);
    } else if Precedes(t, x, o) {
      OutsideSameRelation(t, f, o, f, x);
      var c: nat, d: nat :| Splits(t, c, d, x, f);
      if d == f {
        UnderChild(t, x, p, c);
      } else {
        assert Splits(t, c, d, x, p);
      }
    } else {
      AncestorTransitive(t, f, o, x);
    }
  }

  lemma {:induction false} InsideIsUnder(t: Tree, x: nat, f: nat)
    requires Rooted(t) && IsNode(t, x) && 2 <= f < |t| && t[f].kind != Async && IsAncestor(t, f, x)
    ensures AheadOf(t, x, t[f].parent)
  {
    UnderChild(t, x, t[f].parent, f);
  }

  lemma {:induction false} UnderChild(t: Tree, x: nat, p: nat, c: nat)
    requires Rooted(t) && IsNode(t, x) && 2 <= c < |t| && t[c].parent == p && IsAncestor(t, c, x)
    ensures IsNode(t, p) && IsAncestor(t, p, x) && x != p && ChildToward(t, p, x) == c
  {
    AncestorTransitive(t, p, c, x);
    SiblingSubtreesDisjoint(t, c, ChildToward(t, p, x), x);
  }

  /** What is ahead of `p` is inside its last child `f` or was ahead of `f`. */
  lemma {:induction false} AheadAtLastChild(t: Tree, x: nat, f: nat)
    requires WellFormed(t) && IsNode(t, x) && 2 <= f < |t|
    requires t[t[f].parent].numChildren == t[f].seqNum + 1
    requires AheadOf(t, x, t[f].parent)
    ensures IsAncestor(t, f, x) || AheadOf(t, x, f)
  {
    var p := t[f].parent;
    if UnderOrderedChild(t, x, p) {
      var c := ChildToward(t, p, x);
      if c != f {
        LastChildIsLast(t, c, f);
        assert Splits(t, c, f, x, f);
      }
    } else {
      var c: nat, d: nat :| Splits(t, c, d, x, p);
      assert Splits(t, c, d, x, f);
    }
  }

  lemma LastChildIsLast(t: Tree, c: nat, f: nat)
    requires WellFormed(t) && Siblings(t, c, f) && c != f && t[t[f].parent].numChildren == t[f].seqNum + 1
    ensures t[c].seqNum < t[f].seqNum
  {
    assert NodeOk(t, c);
    assert Siblings(t, f, c);
  }

  /** A child precedes what its parent precedes. */
  lemma ChildPrecedes(t: Tree, f: nat, y: nat)
    requires Rooted(t) && 2 <= f < |t| && IsNode(t, y) && Precedes(t, t[f].parent, y)
    ensures Precedes(t, f, y)
  {
    var c: nat, d: nat :| Splits(t, c, d, t[f].parent, y);
    assert Splits(t, c, d, f, y);
  }

  /** A child is ahead of what its parent is ahead of. */
  lemma ChildAhead(t: Tree, f: nat, o: nat)
    requires Rooted(t) && 2 <= f < |t| && IsNode(t, o) && AheadOf(t, t[f].parent, o)
    ensures AheadOf(t, f, o)
  {
    if Precedes(t, t[f].parent, o) {
      ChildPrecedes(t, f, o);
    }
  }

  /** A node precedes what is beside it, to the right, and what its parent precedes. */
  lemma BesideOrAbove(t: Tree, f: nat, y: nat)
    requires Rooted(t) && 2 <= f < |t| && IsNode(t, y) && Precedes(t, f, y)
    ensures Precedes(t, t[f].parent, y) || exists d: nat :: Splits(t, f, d, f, y)
  {
    var c: nat, d: nat :| Splits(t, c, d, f, y);
    if c == f {
      assert Splits(t, f, d, f, y);
    } else {
      assert Splits(t, c, d, t[f].parent, y);
    }
  }

  /** A last child precedes only what its parent precedes. */
  lemma LastChildPrecedes(t: Tree, f: nat, y: nat)
    requires WellFormed(t) && 2 <= f < |t| && IsNode(t, y) && t[t[f].parent].numChildren == t[f].seqNum + 1
    requires Precedes(t, f, y)
    ensures Precedes(t, t[f].parent, y)
  {
    BesideOrAbove(t, f, y);
    forall d: nat
      ensures !Splits(t, f, d, f, y)
    {
      if Siblings(t, d, f) && d != f { LastChildIsLast(t, d, f); }
    }
  }
}
