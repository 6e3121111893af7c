/** The cache of tree walks: a lossy direct-mapped table from one step's address to the
    last answer that was computed for it. */
module LcaHash {
  import opened Common
  import opened Dpst

  datatype ParallelStatus = NA | TRUE | FALSE

  datatype Entry = Entry(curAddr: nat, remAddr: nat, lcaResult: bool, lca: nat)

  type Slots = seq<Option<Entry>>

  const LCA_TABLE_SIZE: nat := 16000

  /** Where the node array lies in memory; a node's key is its address. */
  datatype Layout = Layout(origin: nat, nodeSize: nat)

  function HtIndex(at: Layout, node: nat): (i: nat)
    ensures i < LCA_TABLE_SIZE
  {
    (at.origin + at.nodeSize * node) % LCA_TABLE_SIZE
  }

  function Hit(at: Layout, s: Slots, cur: nat, rem: nat): Option<Entry>
    requires |s| == LCA_TABLE_SIZE
  {
    match s[HtIndex(at, cur)]
    case Some(e) => if e.curAddr == cur && e.remAddr == rem then Some(e) else None
    case None => None
  }

  /** A pair may be answered from the slot of either of its two steps. */
  function Cached(at: Layout, s: Slots, cur: nat, rem: nat): Option<Entry>
    requires |s| == LCA_TABLE_SIZE
  {
    if Hit(at, s, cur, rem).Some? then Hit(at, s, cur, rem) else Hit(at, s, rem, cur)
  }

  ghost predicate EntryCoherent(t: Tree, e: Entry)
    requires Rooted(t)
  {
    && IsStep(t, e.curAddr) && IsStep(t, e.remAddr)
    && e.lcaResult == Parallel(t, e.curAddr, e.remAddr)
    && e.lca == Lca(t, e.curAddr, e.remAddr)
  }

  /** Every entry of the table repeats the answer a tree walk would give now. */
  ghost predicate Coherent(t: Tree, s: Slots)
    requires Rooted(t)
  {
    |s| == LCA_TABLE_SIZE && forall i | 0 <= i < |s| :: s[i].Some? ==> EntryCoherent(t, s[i].value)
  }

  /** A hit, through either key, equals a fresh walk of the tree. */
  lemma {:induction false} HitIsFresh(at: Layout, t: Tree, s: Slots, cur: nat, rem: nat)
    requires Rooted(t) && Coherent(t, s) && Cached(at, s, cur, rem).Some?
    ensures IsStep(t, cur) && IsStep(t, rem)
    ensures Cached(at, s, cur, rem).value.lcaResult == Parallel(t, cur, rem)
    ensures Cached(at, s, cur, rem).value.lca == Lca(t, cur, rem)
  {
    var i, j := HtIndex(at, cur), HtIndex(at, rem);
    assert s[i].Some? ==> EntryCoherent(t, s[i].value);
    assert s[j].Some? ==> EntryCoherent(t, s[j].value);
    if !Hit(at, s, cur, rem).Some? {
      ParallelSymmetric(t, rem, cur);
      LcaSymmetric(t, rem, cur);
    }
  }

  /** Entries computed on a smaller tree stay right when the tree grows. */
  lemma CoherentWhenTreeGrows(t: Tree, u: Tree, s: Slots)
    requires Rooted(t) && Rooted(u) && Extends(t, u) && Coherent(t, s)
    ensures Coherent(u, s)
  {
    forall i | 0 <= i < |s| && s[i].Some?
      ensures EntryCoherent(u, s[i].value)
    {
      var e := s[i].value;
      assert EntryCoherent(t, e);
      assert SameStructure(t[e.curAddr], u[e.curAddr]) && SameStructure(t[e.remAddr], u[e.remAddr]);
      RelationsStable(t, u, e.curAddr, e.remAddr);
      LcaStable(t, u, e.curAddr, e.remAddr);
    }
  }

  /** The value of the cache after the answer for one ordered pair has been stored. */
  function Stored(at: Layout, s: Slots, e: Entry): Slots
    requires |s| == LCA_TABLE_SIZE
  {
    s[HtIndex(at, e.curAddr) := Some(e)]
  }

  /** What has just been stored is what the next lookup of that pair finds, and a lookup of the
      pair the other way round finds some entry for it. */
  lemma StoredIsFound(at: Layout, s: Slots, e: Entry)
    requires |s| == LCA_TABLE_SIZE
    ensures Cached(at, Stored(at, s, e), e.curAddr, e.remAddr) == Some(e)
    ensures Cached(at, Stored(at, s, e), e.remAddr, e.curAddr).Some?
  {
  }

  // ---------------------------------------------------------------- whole histories

  /** What can happen to the cache: the tree grows, or a pair of steps is queried, for whether
      they are parallel or for where they meet; only the former stores its answer. */
  datatype CacheEvent = Grow(tree: Tree) | Query(a: nat, b: nat) | QueryLca(a: nat, b: nat)

  ghost predicate Possible(t: Tree, e: CacheEvent)
    requires Rooted(t)
  {
    match e
    case Grow(u) => Rooted(u) && Extends(t, u)
    case Query(a, b) => IsStep(t, a) && IsStep(t, b) && a != b
    case QueryLca(a, b) => IsNode(t, a) && IsNode(t, b)
  }

  ghost function Answer(at: Layout, t: Tree, s: Slots, a: nat, b: nat): (bool, Slots)
    requires Rooted(t) && |s| == LCA_TABLE_SIZE && IsStep(t, a) && IsStep(t, b)
  {
    if Cached(at, s, a, b).Some? then (Cached(at, s, a, b).value.lcaResult, s)
    else
      var r, l := Parallel(t, a, b), Lca(t, a, b);
      (r, Stored(at, Stored(at, s, Entry(a, b, r, l)), Entry(b, a, r, l)))
  }

  ghost function AnswerLca(at: Layout, t: Tree, s: Slots, a: nat, b: nat): nat
    requires Rooted(t) && |s| == LCA_TABLE_SIZE && IsNode(t, a) && IsNode(t, b)
  {
    if Cached(at, s, a, b).Some? then Cached(at, s, a, b).value.lca else Lca(t, a, b)
  }

  /** The answers given along a history, each paired with the answer of a fresh walk. */
  ghost predicate AnswersFresh(at: Layout, t: Tree, s: Slots, events: seq<CacheEvent>)
    requires Rooted(t) && |s| == LCA_TABLE_SIZE
    decreases |events|
  {
    events == [] || !Possible(t, events[0]) ||
    match events[0]
    case Grow(u) => AnswersFresh(at, u, s, events[1..])
    case Query(a, b) =>
      && Answer(at, t, s, a, b).0 == Parallel(t, a, b)
      && AnswersFresh(at, t, Answer(at, t, s, a, b).1, events[1..])
    case QueryLca(a, b) => AnswerLca(at, t, s, a, b) == Lca(t, a, b) && AnswersFresh(at, t, s, events[1..])
  }

  lemma {:induction false} StoreKeepsCoherent(at: Layout, t: Tree, s: Slots, a: nat, b: nat)
    requires Rooted(t) && Coherent(t, s) && IsStep(t, a) && IsStep(t, b)
    ensures var r, l := Parallel(t, a, b), Lca(t, a, b);
            Coherent(t, Stored(at, Stored(at, s, Entry(a, b, r, l)), Entry(b, a, r, l)))
  {
    ParallelSymmetric(t, a, b);
    LcaSymmetric(t, a, b);
  }

  /** After any mix of growth, queries, collisions and overwrites, every answer is fresh. */
  lemma {:induction false} CacheAlwaysFresh(at: Layout, t: Tree, s: Slots, events: seq<CacheEvent>)
    requires Rooted(t) && Coherent(t, s)
    ensures AnswersFresh(at, t, s, events)
    decreases |events|
  {
    if events != [] && Possible(t, events[0]) {
      match events[0]
      case Grow(u) =>
        CoherentWhenTreeGrows(t, u, s);
        CacheAlwaysFresh(at, u, s, events[1..]);
      case Query(a, b) =>
        if Cached(at, s, a, b).Some? {
          HitIsFresh(at, t, s, a, b);
        } else {
          StoreKeepsCoherent(at, t, s, a, b);
        }
        CacheAlwaysFresh(at, t, Answer(at, t, s, a, b).1, events[1..]);
      case QueryLca(a, b) =>
        if Cached(at, s, a, b).Some? { HitIsFresh(at, t, s, a, b); }
        CacheAlwaysFresh(at, t, s, events[1..]);
    }
  }

  /** The cache after a history. */
  ghost function AfterAll(at: Layout, t: Tree, s: Slots, events: seq<CacheEvent>): (r: Slots)
    requires Rooted(t) && |s| == LCA_TABLE_SIZE
    ensures |r| == LCA_TABLE_SIZE
    decreases |events|
  {
    if events == [] || !Possible(t, events[0]) then s
    else
      match events[0]
      case Grow(u) => AfterAll(at, u, s, events[1..])
      case Query(a, b) => AfterAll(at, t, Answer(at, t, s, a, b).1, events[1..])
      case QueryLca(_, _) => AfterAll(at, t, s, events[1..])
  }

  /** Every pair queried is `a` and `b` again, or is kept in other slots than theirs. */
  predicate Avoids(at: Layout, a: nat, b: nat, e: CacheEvent) {
    e.Query? ==>
      || (e.a == a && e.b == b) || (e.a == b && e.b == a)
      || {HtIndex(at, e.a), HtIndex(at, e.b)} !! {HtIndex(at, a), HtIndex(at, b)}
  }

  /** A pair that has been queried is answered from the cache from then on, either way round,
      whatever else is queried and however the tree grows, until a pair that is kept in one of
      the same slots is queried. */
  lemma {:induction false} FoundUntilEvicted(at: Layout, t: Tree, s: Slots, a: nat, b: nat, events: seq<CacheEvent>)
    requires Rooted(t) && |s| == LCA_TABLE_SIZE && IsStep(t, a) && IsStep(t, b)
    requires forall k | 0 <= k < |events| :: Avoids(at, a, b, events[k])
    ensures var r := AfterAll(at, t, Answer(at, t, s, a, b).1, events);
            Cached(at, r, a, b).Some? && Cached(at, r, b, a).Some?
  {
    StaysFound(at, t, Answer(at, t, s, a, b).1, a, b, events);
  }

  lemma {:induction false} StaysFound(at: Layout, t: Tree, s: Slots, a: nat, b: nat, events: seq<CacheEvent>)
    requires Rooted(t) && |s| == LCA_TABLE_SIZE && Cached(at, s, a, b).Some?
    requires forall k | 0 <= k < |events| :: Avoids(at, a, b, events[k])
    ensures Cached(at, AfterAll(at, t, s, events), a, b).Some? && Cached(at, AfterAll(at, t, s, events), b, a).Some?
    decreases |events|
  {
    if events != [] && Possible(t, events[0]) {
      assert Avoids(at, a, b, events[0]);
      match events[0]
      case Grow(u) => StaysFound(at, u, s, a, b, events[1..]);
      case Query(c, d) => StaysFound(at, t, Answer(at, t, s, c, d).1, a, b, events[1..]);
      case QueryLca(_, _) => StaysFound(at, t, s, a, b, events[1..]);
    }
  }

  // ---------------------------------------------------------------- the table itself

  class LcaTable {
    const table: array<Option<Entry>>
    const at: Layout

    ghost predicate Valid()
      reads this
    {
      table.Length == LCA_TABLE_SIZE
    }

    constructor (at: Layout)
      ensures Valid() && fresh(table) && this.at == at
      ensures forall i | 0 <= i < table.Length :: table[i] == None
    {
      this.at := at;
      table := new Option<Entry>[LCA_TABLE_SIZE](_ => None);
    }

    method GetHtElement(arg: nat) returns (e: Option<Entry>)
      requires Valid()
      ensures e == if table[HtIndex(at, arg)].Some? && table[HtIndex(at, arg)].value.curAddr == arg
                   then table[HtIndex(at, arg)] else None
    {
      var slot := table[HtIndex(at, arg)];
      if slot.Some? && slot.value.curAddr == arg {
        e := slot;
      } else {
        e := None;
      }
    }

    /** Overwrites the entry of `cur` in place, or evicts whatever occupies its slot. */
    method UpdateEntry(cur: nat, rem: nat, lcaResult: bool, lca: nat)
      requires Valid()
      modifies table
      ensures Valid() && table[..] == Stored(at, old(table[..]), Entry(cur, rem, lcaResult, lca))
      ensures forall i | 0 <= i < table.Length ::
                table[i] == if i == (at.origin + at.nodeSize * cur) % LCA_TABLE_SIZE then Some(Entry(cur, rem, lcaResult, lca))
                            else old(table[i])
      ensures Cached(at, table[..], cur, rem) == Some(Entry(cur, rem, lcaResult, lca))
    {
      var e := GetHtElement(cur);
      if e == None {
        table[HtIndex(at, cur)] := Some(Entry(cur, rem, lcaResult, lca));
      } else {
        table[HtIndex(at, cur)] := Some(e.value.(remAddr := rem, lcaResult := lcaResult, lca := lca));
      }
    }

    method CheckParallel(cur: nat, rem: nat) returns (r: ParallelStatus)
      requires Valid()
      ensures match Cached(at, table[..], cur, rem)
              case Some(e) => r == (if e.lcaResult then TRUE else FALSE)
              case None => r == NA
    {
      var c := GetHtElement(cur);
      if c != None && c.value.remAddr == rem {
        r := if c.value.lcaResult then TRUE else FALSE;
      } else {
        var d := GetHtElement(rem);
        if d != None && d.value.remAddr == cur {
          r := if d.value.lcaResult then TRUE else FALSE;
        } else {
          r := NA;
        }
      }
    }

    method GetLca(cur: nat, rem: nat) returns (r: Option<nat>)
      requires Valid()
      ensures match Cached(at, table[..], cur, rem)
              case Some(e) => r == Some(e.lca)
              case None => r == None
    {
      var c := GetHtElement(cur);
      if c != None && c.value.remAddr == rem {
        r := Some(c.value.lca);
      } else {
        var d := GetHtElement(rem);
        if d != None && d.value.remAddr == cur {
          r := Some(d.value.lca);
        } else {
          r := None;
        }
      }
    }
  }
}
