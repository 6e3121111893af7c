/** The batch handler of the concurrent priority queue.  Elements from `mark` on have been
    pushed and not merged into the heap; a pop may take the last of them without a heapify.
    The batch is proved linearizable: some order of its operations, run one by one on a plain
    multiset, gives the same outcomes and the same contents. */
module PriorityQueue {

  datatype Elem = Elem(prio: int, id: nat)

  /** `fits` says whether storing the element succeeds (it may throw). */
  datatype Operation = Push(elem: Elem, fits: bool) | Pop

  datatype Outcome = Waiting | Pushed | PushFailed | Popped(elem: Elem) | NothingToPop

  predicate Less(a: Elem, b: Elem) {
    a.prio < b.prio
  }

  // ---------------------------------------------------------------- one operation at a time

  /** What a plain maximum-priority multiset allows as the outcome of an operation. */
  ghost predicate Allowed(s: multiset<Elem>, op: Operation, out: Outcome) {
    match op
    case Push(_, fits) => out == if fits then Pushed else PushFailed
    case Pop =>
      || (out == NothingToPop && s == multiset{})
      || (out.Popped? && out.elem in s && forall x | x in s :: !Less(out.elem, x))
  }

  function After(s: multiset<Elem>, op: Operation, out: Outcome): multiset<Elem> {
    match op
    case Push(e, fits) => if fits then s + multiset{e} else s
    case Pop => if out.Popped? then s - multiset{out.elem} else s
  }

  predicate Indices(order: seq<nat>, ops: seq<Operation>, outs: seq<Outcome>) {
    |outs| == |ops| && forall k | 0 <= k < |order| :: order[k] < |ops|
  }

  /** The contents after the operations at `order`, one by one. */
  function Contents(s: multiset<Elem>, ops: seq<Operation>, outs: seq<Outcome>, order: seq<nat>): multiset<Elem>
    requires Indices(order, ops, outs)
    decreases |order|
  {
    if order == [] then s
    else
      var n := |order| - 1;
      After(Contents(s, ops, outs, order[..n]), ops[order[n]], outs[order[n]])
  }

  /** Every operation at `order` has an outcome that is allowed at its turn. */
  ghost predicate Sequential(s: multiset<Elem>, ops: seq<Operation>, outs: seq<Outcome>, order: seq<nat>)
    requires Indices(order, ops, outs)
    decreases |order|
  {
    order == [] ||
    (var n := |order| - 1;
     && Sequential(s, ops, outs, order[..n])
     && Allowed(Contents(s, ops, outs, order[..n]), ops[order[n]], outs[order[n]]))
  }

  function UpTo(n: nat): (r: seq<nat>)
    ensures |r| == n && forall i | 0 <= i < n :: r[i] == i
  {
    if n == 0 then [] else UpTo(n - 1) + [n - 1]
  }

  /** The batch behaves like its operations run one by one in the given order. */
  ghost predicate Linearized(s: multiset<Elem>, ops: seq<Operation>, outs: seq<Outcome>, order: seq<nat>, s': multiset<Elem>) {
    && Indices(order, ops, outs)
    && multiset(order) == multiset(UpTo(|ops|))
    && Sequential(s, ops, outs, order) && Contents(s, ops, outs, order) == s'
  }

  lemma {:induction false} AllowedAt(s: multiset<Elem>, ops: seq<Operation>, outs: seq<Outcome>, order: seq<nat>, k: nat)
    requires Indices(order, ops, outs) && Sequential(s, ops, outs, order) && k < |order|
    ensures Allowed(Contents(s, ops, outs, order[..k]), ops[order[k]], outs[order[k]])
    decreases |order|
  {
    var n := |order| - 1;
    if k < n {
      AllowedAt(s, ops, outs, order[..n], k);
      assert order[..n][..k] == order[..k] && order[..n][k] == order[k];
    }
  }

  /** Turn by turn, a pop gives an element of the contents that none of them exceeds in priority,
      or finds the contents empty; a push succeeds exactly when storing does. */
  lemma {:induction false} TurnByTurn(s: multiset<Elem>, ops: seq<Operation>, outs: seq<Outcome>, order: seq<nat>, k: nat)
    requires Indices(order, ops, outs) && Sequential(s, ops, outs, order) && k < |order|
    ensures var before, op, out := Contents(s, ops, outs, order[..k]), ops[order[k]], outs[order[k]];
            && (op.Push? ==> out == if op.fits then Pushed else PushFailed)
            && (op.Pop? ==> if before == multiset{} then out == NothingToPop
                            else out.Popped? && out.elem in before && forall x | x in before :: x.prio <= out.elem.prio)
  {
    AllowedAt(s, ops, outs, order, k);
    hide Contents;
    hide Sequential;
    var before, out := Contents(s, ops, outs, order[..k]), outs[order[k]];
    if out.Popped? && ops[order[k]].Pop? {
      forall x | x in before
        ensures x.prio <= out.elem.prio
      {
        assert !Less(out.elem, x);
      }
    }
  }

  // ---------------------------------------------------------------- nothing lost, nothing invented

  /** What an operation puts in, and what an outcome takes out. */
  function PutBy(op: Operation): multiset<Elem> {
    if op.Push? && op.fits then multiset{op.elem} else multiset{}
  }

  function TakenBy(out: Outcome): multiset<Elem> {
    if out.Popped? then multiset{out.elem} else multiset{}
  }

  function Gathered(bags: seq<multiset<Elem>>, order: seq<nat>): multiset<Elem>
    requires forall k | 0 <= k < |order| :: order[k] < |bags|
  {
    if order == [] then multiset{} else Gathered(bags, order[..|order| - 1]) + bags[order[|order| - 1]]
  }

  function Total(bags: seq<multiset<Elem>>): multiset<Elem> {
    Gathered(bags, UpTo(|bags|))
  }

  lemma {:induction false} GatheredWithout(bags: seq<multiset<Elem>>, order: seq<nat>, i: nat)
    requires (forall k | 0 <= k < |order| :: order[k] < |bags|) && i < |order|
    ensures Gathered(bags, order) == Gathered(bags, order[..i] + order[i + 1..]) + bags[order[i]]
    decreases |order|
  {
    var n := |order| - 1;
    var rest := order[..i] + order[i + 1..];
    if i < n {
      GatheredWithout(bags, order[..n], i);
      assert rest[..n - 1] == order[..n][..i] + order[..n][i + 1..];
    } else {
      assert rest == order[..n];
    }
  }

  lemma {:induction false} GatheredAnyOrder(bags: seq<multiset<Elem>>, a: seq<nat>, b: seq<nat>)
    requires multiset(a) == multiset(b) && forall k | 0 <= k < |a| :: a[k] < |bags|
    ensures forall k | 0 <= k < |b| :: b[k] < |bags|
    ensures Gathered(bags, a) == Gathered(bags, b)
    decreases |a|
  {
    forall k | 0 <= k < |b|
      ensures b[k] < |bags|
    {
      assert b[k] in multiset(a);
    }
    if a == [] {
      assert |multiset(b)| == 0 && b == [];
    } else {
      var n := |a| - 1;
      assert a[n] in multiset(b);
      var i :| 0 <= i < |b| && b[i] == a[n];
      GatheredWithout(bags, b, i);
      BothWithout(a, b, i);
      GatheredAnyOrder(bags, a[..n], b[..i] + b[i + 1..]);
    }
  }

  lemma BothWithout(a: seq<nat>, b: seq<nat>, i: nat)
    requires multiset(a) == multiset(b) && a != [] && i < |b| && b[i] == a[|a| - 1]
    ensures multiset(a[..|a| - 1]) == multiset(b[..i] + b[i + 1..])
  {
    var front, rest, x := a[..|a| - 1], b[..i] + b[i + 1..], b[i];
    assert a == front + [x] && b == b[..i] + [x] + b[i + 1..];
    Cancelled(multiset(front), multiset(rest), x);
  }

  lemma Cancelled<T>(m: multiset<T>, n: multiset<T>, x: T)
    requires m + multiset{x} == n + multiset{x}
    ensures m == n
  {
    forall y
      ensures m[y] == n[y]
    {
      assert (m + multiset{x})[y] == (n + multiset{x})[y];
    }
  }

  lemma {:induction false} BalancedSoFar(s: multiset<Elem>, ops: seq<Operation>, outs: seq<Outcome>, order: seq<nat>,
                                         puts: seq<multiset<Elem>>, takes: seq<multiset<Elem>>)
    requires Indices(order, ops, outs) && Sequential(s, ops, outs, order) && |puts| == |takes| == |ops|
    requires forall i | 0 <= i < |ops| :: puts[i] == PutBy(ops[i]) && takes[i] == TakenBy(outs[i])
    ensures Contents(s, ops, outs, order) + Gathered(takes, order) == s + Gathered(puts, order)
    decreases |order|
  {
    if order != [] {
      var n := |order| - 1;
      BalancedSoFar(s, ops, outs, order[..n], puts, takes);
      BalancedTurn(s, Contents(s, ops, outs, order[..n]), Gathered(takes, order[..n]), Gathered(puts, order[..n]),
                   ops[order[n]], outs[order[n]]);
    }
  }

  lemma BalancedTurn(s: multiset<Elem>, now: multiset<Elem>, taken: multiset<Elem>, put: multiset<Elem>, op: Operation, out: Outcome)
    requires now + taken == s + put && Allowed(now, op, out)
    ensures After(now, op, out) + (taken + TakenBy(out)) == s + (put + PutBy(op))
  {
    assert After(now, op, out) + TakenBy(out) == now + PutBy(op);
    calc {
      After(now, op, out) + (taken + TakenBy(out));
      (After(now, op, out) + TakenBy(out)) + taken;
      (now + PutBy(op)) + taken;
      (now + taken) + PutBy(op);
      s + (put + PutBy(op));
    }
  }

  function Puts(ops: seq<Operation>): seq<multiset<Elem>> {
    seq(|ops|, i requires 0 <= i < |ops| => PutBy(ops[i]))
  }

  function Takes(outs: seq<Outcome>): seq<multiset<Elem>> {
    seq(|outs|, i requires 0 <= i < |outs| => TakenBy(outs[i]))
  }

  /** Over a batch no element is lost, and none comes out that was not in or pushed. */
  lemma {:induction false} Balanced(s: multiset<Elem>, ops: seq<Operation>, outs: seq<Outcome>, order: seq<nat>, s': multiset<Elem>)
    requires Linearized(s, ops, outs, order, s')
    ensures s' + Total(Takes(outs)) == s + Total(Puts(ops))
  {
    BalancedSoFar(s, ops, outs, order, Puts(ops), Takes(outs));
    GatheredAnyOrder(Puts(ops), order, UpTo(|ops|));
    GatheredAnyOrder(Takes(outs), order, UpTo(|ops|));
  }

  // ---------------------------------------------------------------- building the order

  lemma {:induction false} SequentialNext(s: multiset<Elem>, ops: seq<Operation>, outs: seq<Outcome>, order: seq<nat>, i: nat)
    requires Indices(order, ops, outs) && Sequential(s, ops, outs, order) && i < |ops|
    requires Allowed(Contents(s, ops, outs, order), ops[i], outs[i])
    ensures Indices(order + [i], ops, outs) && Sequential(s, ops, outs, order + [i])
    ensures Contents(s, ops, outs, order + [i]) == After(Contents(s, ops, outs, order), ops[i], outs[i])
  {
  }

  /** Giving an outcome to an operation that is not in the order changes nothing about it. */
  lemma {:induction false} OutcomeElsewhere(s: multiset<Elem>, ops: seq<Operation>, outs: seq<Outcome>, order: seq<nat>, i: nat, out: Outcome)
    requires Indices(order, ops, outs) && i < |ops| && i !in order
    ensures Indices(order, ops, outs[i := out])
    ensures Contents(s, ops, outs[i := out], order) == Contents(s, ops, outs, order)
    ensures Sequential(s, ops, outs[i := out], order) == Sequential(s, ops, outs, order)
    decreases |order|
  {
    if order != [] {
      var n := |order| - 1;
      assert order[n] in order;
      OutcomeElsewhere(s, ops, outs, order[..n], i, out);
    }
  }

  // ---------------------------------------------------------------- heaps

  function Parent(i: nat): (r: nat)
    requires i > 0
    ensures r < i
  {
    (i - 1) / 2
  }

  predicate HeapOrder(d: seq<Elem>, n: nat)
    requires n <= |d|
  {
    forall i: nat {:trigger Parent(i)} | 0 < i < n :: !Less(d[Parent(i)], d[i])
  }

  lemma {:induction false} RootIsMax(d: seq<Elem>, n: nat, i: nat)
    requires n <= |d| && HeapOrder(d, n) && i < n
    ensures !Less(d[0], d[i])
    decreases i
  {
    if i > 0 {
      RootIsMax(d, n, Parent(i));
    }
  }

  lemma RootIsMaxOf(d: seq<Elem>, n: nat)
    requires 0 < n <= |d| && HeapOrder(d, n)
    ensures forall x | x in multiset(d[..n]) :: !Less(d[0], x)
  {
    forall x | x in multiset(d[..n])
      ensures !Less(d[0], x)
    {
      var i :| 0 <= i < n && d[..n][i] == x;
      RootIsMax(d, n, i);
    }
  }

  lemma FirstIsMax(d: seq<Elem>)
    requires HeapOrder(d, |d|)
    ensures forall x | x in d :: x.prio <= d[0].prio
  {
    if d != [] {
      RootIsMaxOf(d, |d|);
      assert d[..|d|] == d;
      forall x | x in d
        ensures x.prio <= d[0].prio
      {
        assert x in multiset(d[..|d|]) && !Less(d[0], x);
      }
    }
  }

  /** Moving a hole from `i` to `j`. */
  lemma MoveHole(d: seq<Elem>, i: nat, j: nat, x: Elem)
    requires i < |d| && j < |d| && i != j
    ensures multiset(d[i := d[j]][j := x]) == multiset(d[i := x])
  {
  }

  /** A heap of `n` elements with a hole at `cur`, into which `x` may go as far as the
      children of the hole are concerned. */
  predicate Gap(d: seq<Elem>, n: nat, cur: nat, x: Elem)
    requires cur < n <= |d|
  {
    && (forall i: nat {:trigger Parent(i)} | 0 < i < n && i != cur && Parent(i) != cur :: !Less(d[Parent(i)], d[i]))
    && (forall i: nat {:trigger Parent(i)} | 0 < i < n && Parent(i) == cur ::
          !Less(x, d[i]) && (cur != 0 ==> !Less(d[Parent(cur)], d[i])))
  }

  lemma GapAtEnd(d: seq<Elem>, n: nat)
    requires n < |d| && HeapOrder(d, n)
    ensures Gap(d, n + 1, n, d[n])
  {
  }

  lemma GapMovesUp(d: seq<Elem>, n: nat, cur: nat, x: Elem)
    requires 0 < cur < n <= |d| && Gap(d, n, cur, x) && Less(d[Parent(cur)], x)
    ensures Gap(d[cur := d[Parent(cur)]], n, Parent(cur), x)
  {
  }

  lemma GapFilled(d: seq<Elem>, n: nat, cur: nat, x: Elem)
    requires cur < n <= |d| && Gap(d, n, cur, x) && (cur == 0 || !Less(d[Parent(cur)], x))
    ensures HeapOrder(d[cur := x], n)
  {
  }

  // ---------------------------------------------------------------- taking the root out

  /** `target` is a child of `cur` that no child of `cur` exceeds. */
  predicate BestChild(d: seq<Elem>, n: nat, cur: nat, target: nat)
    requires n <= |d|
  {
    && 0 < target < n && Parent(target) == cur
    && forall i: nat {:trigger Parent(i)} | 0 < i < n && Parent(i) == cur :: !Less(d[target], d[i])
  }

  lemma HoleFilled(d: seq<Elem>, n: nat, cur: nat, x: Elem)
    requires cur < n <= |d| && HeapOrder(d, n) && (cur == 0 || !Less(d[Parent(cur)], x))
    requires forall i: nat {:trigger Parent(i)} | 0 < i < n && Parent(i) == cur :: !Less(x, d[i])
    ensures HeapOrder(d[cur := x], n)
  {
  }

  lemma Replaced(h: seq<Elem>, cur: nat, x: Elem, y: Elem)
    requires cur < |h|
    ensures multiset(h[cur := y]) == multiset(h[cur := x]) - multiset{x} + multiset{y}
  {
  }

  function Last<T>(s: seq<T>): T
    requires s != []
  {
    s[|s| - 1]
  }

  function Front<T>(s: seq<T>): seq<T>
    requires s != []
  {
    s[..|s| - 1]
  }

  lemma FrontLast(s: seq<Elem>)
    requires s != []
    ensures multiset(s) == multiset(Front(s)) + multiset{Last(s)}
  {
    assert s == Front(s) + [Last(s)];
  }

  /** What is left when the root is taken out and the last element fills the hole. */
  ghost predicate RootTaken(d: seq<Elem>, m: nat, d': seq<Elem>, m': nat)
    requires d != [] && m <= |d|
  {
    && |d'| == |d| - 1 && m' == (if m < |d| then m else |d| - 1) && HeapOrder(d', m')
    && (m == 0 ==> d' == Front(d[0 := Last(d)]))
    && (0 < m < |d| ==> d'[m'..] == Front(d[m..]) && multiset(d'[..m']) == multiset(d[..m]) - multiset{d[0]} + multiset{Last(d)})
    && (m == |d| ==> multiset(d') == multiset(d) - multiset{d[0]})
  }

  /** The state of the loop in reheap: a copy of its best child stands in every place passed. */
  ghost predicate Sinking(d: seq<Elem>, m: nat, d': seq<Elem>, cur: nat)
    requires d != [] && 0 < m <= |d|
  {
    && |d'| == |d| && cur < m && HeapOrder(d', m) && d'[m..] == d[m..] && Last(d') == Last(d)
    && multiset(d'[..m][cur := d[0]]) == multiset(d[..m])
    && (cur == 0 || !Less(d'[Parent(cur)], Last(d)))
  }

  lemma Sinks(d: seq<Elem>, m: nat, d': seq<Elem>, cur: nat, target: nat)
    requires d != [] && 0 < m <= |d| && Sinking(d, m, d', cur)
    requires BestChild(d', m, cur, target) && !Less(d'[target], Last(d))
    ensures cur < m && target < m && Sinking(d, m, d'[cur := d'[target]], target)
    ensures |d'| == |d| && Last(d'[cur := d'[target]]) == Last(d)
  {
  }

  /** `x` may go into the hole at `cur` as far as its children are concerned. */
  predicate AboveChildren(d: seq<Elem>, m: nat, cur: nat, x: Elem)
    requires m <= |d|
  {
    forall i: nat {:trigger Parent(i)} | 0 < i < m && Parent(i) == cur :: !Less(x, d[i])
  }

  lemma HeapPrefix(d: seq<Elem>, n: nat)
    requires n < |d| && HeapOrder(d, n)
    ensures HeapOrder(Front(d), n)
  {
  }

  lemma SinkingEndsBelowTail(d: seq<Elem>, m: nat, d': seq<Elem>, cur: nat)
    requires d != [] && 0 < m < |d| && Sinking(d, m, d', cur) && AboveChildren(d', m, cur, Last(d))
    ensures RootTaken(d, m, Front(d'[cur := Last(d)]), m)
  {
    HoleFilled(d', m, cur, Last(d));
    HeapPrefix(d'[cur := Last(d)], m);
    HeapPartFilled(d, m, d', cur);
    hide HeapOrder;
    hide AboveChildren;
    TailPartKept(d, m, d', cur);
  }

  lemma TailPartKept(d: seq<Elem>, m: nat, d': seq<Elem>, cur: nat)
    requires |d'| == |d| && cur < m < |d| && d'[m..] == d[m..]
    ensures Front(d'[cur := Last(d)])[m..] == Front(d[m..])
  {
    assert Front(d'[cur := Last(d)])[m..] == Front(d'[m..]);
  }

  lemma HeapPartFilled(d: seq<Elem>, m: nat, d': seq<Elem>, cur: nat)
    requires |d'| == |d| && cur < m < |d| && multiset(d'[..m][cur := d[0]]) == multiset(d[..m])
    ensures multiset(Front(d'[cur := Last(d)])[..m]) == multiset(d[..m]) - multiset{d[0]} + multiset{Last(d)}
  {
    Replaced(d'[..m], cur, d[0], Last(d));
    assert Front(d'[cur := Last(d)])[..m] == d'[..m][cur := Last(d)];
  }

  lemma SinkingEndsAtLast(d: seq<Elem>, d': seq<Elem>, cur: nat)
    requires d != [] && Sinking(d, |d|, d', cur) && cur == |d| - 1
    ensures RootTaken(d, |d|, Front(d'), |d| - 1)
  {
    assert d'[..|d|] == d' && d[..|d|] == d;
    hide HeapOrder;
    LastTaken(d, d');
    HeapPrefix(d', |d| - 1);
  }

  lemma LastTaken(d: seq<Elem>, d': seq<Elem>)
    requires d != [] && |d'| == |d| && multiset(d'[|d| - 1 := d[0]]) == multiset(d)
    ensures multiset(Front(d')) == multiset(d) - multiset{d[0]}
  {
    var f := d'[|d| - 1 := d[0]];
    FrontLast(f);
    assert Front(f) == Front(d');
  }

  lemma SinkingEndsInHeap(d: seq<Elem>, d': seq<Elem>, cur: nat)
    requires d != [] && Sinking(d, |d|, d', cur) && cur < |d| - 1 && AboveChildren(d', |d|, cur, Last(d))
    ensures RootTaken(d, |d|, Front(d'[cur := Last(d)]), |d| - 1)
  {
    assert d'[..|d|] == d' && d[..|d|] == d;
    HoleFilled(d', |d|, cur, Last(d));
    HoleFilledLeaves(d, d', cur);
  }

  lemma Swapped(m: multiset<Elem>, n: multiset<Elem>, x: Elem, y: Elem)
    requires x in m && n + multiset{y} == m - multiset{x} + multiset{y}
    ensures n == m - multiset{x}
  {
    forall e
      ensures n[e] == (m - multiset{x})[e]
    {
      assert (n + multiset{y})[e] == (m - multiset{x} + multiset{y})[e];
    }
  }

  lemma HoleFilledHas(d: seq<Elem>, d': seq<Elem>, cur: nat)
    requires |d| == |d'| && cur < |d| && multiset(d'[cur := d[0]]) == multiset(d)
    ensures d[0] in multiset(d) && multiset(d'[cur := Last(d)]) == multiset(d) - multiset{d[0]} + multiset{Last(d)}
  {
  }

  lemma HoleFilledLeaves(d: seq<Elem>, d': seq<Elem>, cur: nat)
    requires |d| == |d'| && cur < |d| - 1 && Last(d') == Last(d) && multiset(d'[cur := d[0]]) == multiset(d)
    ensures multiset(Front(d'[cur := Last(d)])) == multiset(d) - multiset{d[0]}
  {
    HoleFilledHas(d, d', cur);
    var f := d'[cur := Last(d)];
    assert Last(f) == Last(d);
    FrontLast(f);
    Swapped(multiset(d), multiset(Front(f)), d[0], Last(d));
  }

  // ---------------------------------------------------------------- a batch in progress

  /** The pushes whose elements wait in the tail, in tail order. */
  predicate TailPush(ops: seq<Operation>, outs: seq<Outcome>, i: nat, e: Elem) {
    i < |ops| == |outs| && ops[i] == Push(e, true) && outs[i] == Pushed
  }

  predicate TailOk(ops: seq<Operation>, outs: seq<Outcome>, tail: seq<nat>, rest: seq<Elem>) {
    |tail| == |rest| && forall k {:trigger tail[k]} | 0 <= k < |tail| :: TailPush(ops, outs, tail[k], rest[k])
  }

  /** The operations in `order` have happened; the pushes of the tail are held back. */
  ghost predicate Progress(s0: multiset<Elem>, ops: seq<Operation>, outs: seq<Outcome>, order: seq<nat>, tail: seq<nat>,
                           d: seq<Elem>, m: nat) {
    && m <= |d| && HeapOrder(d, m)
    && Indices(order, ops, outs) && Sequential(s0, ops, outs, order)
    && Contents(s0, ops, outs, order) == multiset(d[..m])
    && TailOk(ops, outs, tail, d[m..])
  }

  /** Every operation met so far has happened, or is held back, or is postponed. */
  ghost predicate Accounted(order: seq<nat>, tail: seq<nat>, popList: seq<nat>, n: nat) {
    multiset(order) + multiset(tail) + multiset(popList) == multiset(UpTo(n))
  }

  lemma {:induction false} CountUpTo(n: nat, i: nat)
    ensures multiset(UpTo(n))[i] == if i < n then 1 else 0
    decreases n
  {
    if n > 0 {
      CountUpTo(n - 1, i);
    }
  }

  lemma NotMetYet(order: seq<nat>, tail: seq<nat>, popList: seq<nat>, n: nat)
    requires Accounted(order, tail, popList, n)
    ensures n !in order && n !in tail
  {
    CountUpTo(n, n);
    assert multiset(order)[n] == 0 && multiset(tail)[n] == 0;
  }

  lemma PostponedOnlyOnce(order: seq<nat>, tail: seq<nat>, popList: seq<nat>, n: nat)
    requires Accounted(order, tail, popList, n) && popList != []
    ensures popList[0] !in order && popList[0] !in tail
  {
    var p := popList[0];
    CountUpTo(n, p);
    assert p in multiset(popList);
    assert multiset(order)[p] + multiset(tail)[p] + multiset(popList)[p] <= 1;
  }

  /** Recording the outcome of an operation not yet met disturbs nothing. */
  lemma ProgressOutcome(s0: multiset<Elem>, ops: seq<Operation>, outs: seq<Outcome>, order: seq<nat>, tail: seq<nat>,
                        d: seq<Elem>, m: nat, i: nat, out: Outcome)
    requires Progress(s0, ops, outs, order, tail, d, m) && i < |ops| && i !in order && i !in tail
    ensures Progress(s0, ops, outs[i := out], order, tail, d, m)
  {
    OutcomeElsewhere(s0, ops, outs, order, i, out);
    forall k | 0 <= k < |tail|
      ensures TailPush(ops, outs[i := out], tail[k], d[m..][k])
    {
      assert TailPush(ops, outs, tail[k], d[m..][k]) && tail[k] in tail;
    }
  }

  /** A push goes to the end of the tail and is held back. */
  lemma PushHeldBack(s0: multiset<Elem>, ops: seq<Operation>, outs: seq<Outcome>, order: seq<nat>, tail: seq<nat>,
                     d: seq<Elem>, m: nat, i: nat, e: Elem)
    requires Progress(s0, ops, outs, order, tail, d, m) && TailPush(ops, outs, i, e)
    ensures Progress(s0, ops, outs, order, tail + [i], d + [e], m)
  {
    assert (d + [e])[..m] == d[..m] && (d + [e])[m..] == d[m..] + [e];
  }

  /** One element of the tail, wherever it stands, is pushed now. */
  lemma {:induction false} HappensNow(s0: multiset<Elem>, ops: seq<Operation>, outs: seq<Outcome>, order: seq<nat>, i: nat, e: Elem)
    requires Indices(order, ops, outs) && Sequential(s0, ops, outs, order) && TailPush(ops, outs, i, e)
    ensures Indices(order + [i], ops, outs) && Sequential(s0, ops, outs, order + [i])
    ensures Contents(s0, ops, outs, order + [i]) == Contents(s0, ops, outs, order) + multiset{e}
  {
  }

  /** A pushed element that no element of the heap exceeds may be popped at once. */
  lemma {:induction false} PushThenPop(s0: multiset<Elem>, ops: seq<Operation>, outs: seq<Outcome>, order: seq<nat>, i: nat, p: nat, e: Elem)
    requires Indices(order, ops, outs) && Sequential(s0, ops, outs, order) && TailPush(ops, outs, i, e)
    requires forall x | x in Contents(s0, ops, outs, order) :: !Less(e, x)
    requires p < |ops| && ops[p] == Pop && outs[p] == Popped(e)
    ensures Indices(order + [i] + [p], ops, outs) && Sequential(s0, ops, outs, order + [i] + [p])
    ensures Contents(s0, ops, outs, order + [i] + [p]) == Contents(s0, ops, outs, order)
  {
    HappensNow(s0, ops, outs, order, i, e);
    SequentialNext(s0, ops, outs, order + [i], p);
  }

  /** An element that beats the top is exceeded by nothing in the heap. */
  lemma BeatsTop(d: seq<Elem>, m: nat, e: Elem)
    requires m < |d| && HeapOrder(d, m) && Less(d[0], e)
    ensures forall x | x in multiset(d[..m]) :: !Less(e, x)
  {
    if m > 0 {
      RootIsMaxOf(d, m);
    }
  }

  lemma TailShorter(ops: seq<Operation>, outs: seq<Outcome>, tail: seq<nat>, rest: seq<Elem>)
    requires TailOk(ops, outs, tail, rest) && tail != []
    ensures TailOk(ops, outs, Front(tail), Front(rest)) && TailPush(ops, outs, Last(tail), Last(rest))
  {
  }

  /** Popping the last element of the tail, which beats the top: its push happens just before. */
  lemma TailPopped(s0: multiset<Elem>, ops: seq<Operation>, outs: seq<Outcome>, order: seq<nat>, tail: seq<nat>,
                   d: seq<Elem>, m: nat, p: nat)
    requires Progress(s0, ops, outs, order, tail, d, m) && m < |d| && Less(d[0], Last(d))
    requires p < |ops| && ops[p] == Pop && outs[p] == Popped(Last(d))
    ensures tail != [] && Progress(s0, ops, outs, order + [Last(tail)] + [p], Front(tail), Front(d), m)
  {
    TailShorter(ops, outs, tail, d[m..]);
    BeatsTop(d, m, Last(d));
    PushThenPop(s0, ops, outs, order, Last(tail), p, Last(d));
    assert Front(d)[..m] == d[..m];
    assert Front(d)[m..] == Front(d[m..]);
  }

  /** The top of the heap is a maximum: popping it is allowed. */
  lemma {:induction false} TopHappens(s0: multiset<Elem>, ops: seq<Operation>, outs: seq<Outcome>, order: seq<nat>, d: seq<Elem>, m: nat, p: nat)
    requires 0 < m <= |d| && HeapOrder(d, m) && Indices(order, ops, outs) && Sequential(s0, ops, outs, order)
    requires Contents(s0, ops, outs, order) == multiset(d[..m])
    requires p < |ops| && ops[p] == Pop && outs[p] == Popped(d[0])
    ensures Indices(order + [p], ops, outs) && Sequential(s0, ops, outs, order + [p])
    ensures Contents(s0, ops, outs, order + [p]) == multiset(d[..m]) - multiset{d[0]}
  {
    RootIsMaxOf(d, m);
    assert d[0] == d[..m][0];
    SequentialNext(s0, ops, outs, order, p);
  }

  lemma TailEmptyIffAllHeap(ops: seq<Operation>, outs: seq<Outcome>, tail: seq<nat>, d: seq<Elem>, m: nat)
    requires m <= |d| && TailOk(ops, outs, tail, d[m..])
    ensures tail == [] <==> m == |d|
    ensures m < |d| ==> TailPush(ops, outs, Last(tail), Last(d)) && TailOk(ops, outs, Front(tail), Front(d[m..]))
  {
    if tail != [] {
      TailShorter(ops, outs, tail, d[m..]);
    }
  }

  /** What is in the heap, and in the tail, after the top is gone. */
  lemma AfterTop(d: seq<Elem>, m: nat, d': seq<Elem>, m': nat)
    requires 0 < m <= |d| && RootTaken(d, m, d', m')
    ensures m' <= |d'| && HeapOrder(d', m')
    ensures d'[m'..] == if m < |d| then Front(d[m..]) else []
    ensures multiset(d'[..m']) == multiset(d[..m]) - multiset{d[0]} + (if m < |d| then multiset{Last(d)} else multiset{})
  {
    hide HeapOrder;
    if m == |d| {
      assert d[..m] == d && d'[..m'] == d';
    }
  }

  /** Popping the top of the heap; if the last element of the tail fills the hole, its push
      happens right after. */
  lemma TopPopped(s0: multiset<Elem>, ops: seq<Operation>, outs: seq<Outcome>, order: seq<nat>, tail: seq<nat>,
                  d: seq<Elem>, m: nat, d': seq<Elem>, m': nat, p: nat)
    requires Progress(s0, ops, outs, order, tail, d, m) && m > 0 && d != [] && RootTaken(d, m, d', m')
    requires p < |ops| && ops[p] == Pop && outs[p] == Popped(d[0])
    ensures if tail == [] then Progress(s0, ops, outs, order + [p], [], d', m')
            else Progress(s0, ops, outs, order + [p] + [Last(tail)], Front(tail), d', m')
  {
    TopHappens(s0, ops, outs, order, d, m, p);
    AfterTop(d, m, d', m');
    TailEmptyIffAllHeap(ops, outs, tail, d, m);
    if tail != [] {
      HappensNow(s0, ops, outs, order + [p], Last(tail), Last(d));
    }
    hide HeapOrder;
    hide Sequential;
    hide Contents;
    hide RootTaken;
    hide TailPush;
  }

  /** The tail with its first element gone and the last one in its place. */
  function Refilled<T>(s: seq<T>): seq<T>
    requires s != []
  {
    Front(s[0 := Last(s)])
  }

  /** With an empty heap the first element of the tail is the top: it is pushed and popped. */
  lemma FirstPopped(s0: multiset<Elem>, ops: seq<Operation>, outs: seq<Outcome>, order: seq<nat>, tail: seq<nat>,
                    d: seq<Elem>, d': seq<Elem>, p: nat)
    requires Progress(s0, ops, outs, order, tail, d, 0) && d != [] && RootTaken(d, 0, d', 0)
    requires p < |ops| && ops[p] == Pop && outs[p] == Popped(d[0])
    ensures tail != [] && Progress(s0, ops, outs, order + [tail[0]] + [p], Refilled(tail), d', 0)
  {
    assert d[0..] == d && d'[0..] == d';
    assert TailPush(ops, outs, tail[0], d[0..][0]) && TailPush(ops, outs, tail[|tail| - 1], d[0..][|tail| - 1]);
    PushThenPop(s0, ops, outs, order, tail[0], p, d[0]);
    forall k | 0 <= k < |Refilled(tail)|
      ensures TailPush(ops, outs, Refilled(tail)[k], d'[k])
    {
      assert TailPush(ops, outs, tail[k], d[0..][k]);
    }
  }

  lemma {:induction false} HappensLast(s0: multiset<Elem>, ops: seq<Operation>, outs: seq<Outcome>, order: seq<nat>, tail: seq<nat>, e: Elem)
    requires tail != [] && Indices(order + Front(tail), ops, outs) && Sequential(s0, ops, outs, order + Front(tail))
    requires TailPush(ops, outs, Last(tail), e)
    ensures Indices(order + tail, ops, outs) && Sequential(s0, ops, outs, order + tail)
    ensures Contents(s0, ops, outs, order + tail) == Contents(s0, ops, outs, order + Front(tail)) + multiset{e}
  {
    hide Sequential;
    hide Contents;
    hide TailPush;
    var o := order + Front(tail);
    HappensNow(s0, ops, outs, o, Last(tail), e);
    assert order + tail == o + [Last(tail)];
  }

  /** In the end the pushes still held back happen one after the other. */
  lemma {:induction false} TailHappens(s0: multiset<Elem>, ops: seq<Operation>, outs: seq<Outcome>, order: seq<nat>, tail: seq<nat>,
                                       rest: seq<Elem>)
    requires Indices(order, ops, outs) && Sequential(s0, ops, outs, order) && TailOk(ops, outs, tail, rest)
    ensures Indices(order + tail, ops, outs) && Sequential(s0, ops, outs, order + tail)
    ensures Contents(s0, ops, outs, order + tail) == Contents(s0, ops, outs, order) + multiset(rest)
    decreases |tail|
  {
    if tail == [] {
      assert order + tail == order;
    } else {
      TailShorter(ops, outs, tail, rest);
      TailHappens(s0, ops, outs, order, Front(tail), Front(rest));
      HappensLast(s0, ops, outs, order, tail, Last(rest));
      FrontLast(rest);
    }
  }

  // ---------------------------------------------------------------- the two passes

  /** Only pops are postponed. */
  predicate PopsOk(ops: seq<Operation>, popList: seq<nat>) {
    forall k {:trigger popList[k]} | 0 <= k < |popList| :: popList[k] < |ops| && ops[popList[k]] == Pop
  }

  lemma PopsShorter(ops: seq<Operation>, popList: seq<nat>)
    requires PopsOk(ops, popList) && popList != []
    ensures popList[0] < |ops| && ops[popList[0]] == Pop && PopsOk(ops, popList[1..])
  {
  }

  /** What holds between two operations of the handler. */
  ghost predicate Batch(s0: multiset<Elem>, ops: seq<Operation>, outs: seq<Outcome>, order: seq<nat>, tail: seq<nat>,
                        popList: seq<nat>, n: nat, d: seq<Elem>, m: nat) {
    && Progress(s0, ops, outs, order, tail, d, m) && n <= |ops| && Accounted(order, tail, popList, n)
    && PopsOk(ops, popList)
  }

  lemma BatchFacts(s0: multiset<Elem>, ops: seq<Operation>, outs: seq<Outcome>, order: seq<nat>, tail: seq<nat>,
                   popList: seq<nat>, n: nat, d: seq<Elem>, m: nat)
    requires Batch(s0, ops, outs, order, tail, popList, n, d, m)
    ensures |outs| == |ops| && m <= |d| && HeapOrder(d, m) && (popList != [] ==> popList[0] < |ops|)
  {
  }

  lemma BatchBegins(ops: seq<Operation>, outs: seq<Outcome>, d: seq<Elem>)
    requires HeapOrder(d, |d|) && |outs| == |ops|
    ensures Batch(multiset(d), ops, outs, [], [], [], 0, d, |d|)
  {
    assert d[..|d|] == d && d[|d|..] == [];
  }

  lemma BatchPush(s0: multiset<Elem>, ops: seq<Operation>, outs: seq<Outcome>, order: seq<nat>, tail: seq<nat>,
                  popList: seq<nat>, n: nat, d: seq<Elem>, m: nat, e: Elem)
    requires Batch(s0, ops, outs, order, tail, popList, n, d, m) && n < |ops| && ops[n] == Push(e, true)
    ensures Batch(s0, ops, outs[n := Pushed], order, tail + [n], popList, n + 1, d + [e], m)
  {
    NotMetYet(order, tail, popList, n);
    ProgressOutcome(s0, ops, outs, order, tail, d, m, n, Pushed);
    PushHeldBack(s0, ops, outs[n := Pushed], order, tail, d, m, n, e);
  }

  lemma BatchPushFails(s0: multiset<Elem>, ops: seq<Operation>, outs: seq<Outcome>, order: seq<nat>, tail: seq<nat>,
                       popList: seq<nat>, n: nat, d: seq<Elem>, m: nat)
    requires Batch(s0, ops, outs, order, tail, popList, n, d, m) && n < |ops| && ops[n].Push? && !ops[n].fits
    ensures Batch(s0, ops, outs[n := PushFailed], order + [n], tail, popList, n + 1, d, m)
  {
    NotMetYet(order, tail, popList, n);
    ProgressOutcome(s0, ops, outs, order, tail, d, m, n, PushFailed);
    SequentialNext(s0, ops, outs[n := PushFailed], order, n);
  }

  lemma BatchPostpone(s0: multiset<Elem>, ops: seq<Operation>, outs: seq<Outcome>, order: seq<nat>, tail: seq<nat>,
                      popList: seq<nat>, n: nat, d: seq<Elem>, m: nat)
    requires Batch(s0, ops, outs, order, tail, popList, n, d, m) && n < |ops| && ops[n] == Pop
    ensures Batch(s0, ops, outs, order, tail, [n] + popList, n + 1, d, m)
  {
    assert multiset([n] + popList) == multiset{n} + multiset(popList);
    hide Progress;
    forall k | 0 <= k < |[n] + popList|
      ensures ([n] + popList)[k] < |ops| && ops[([n] + popList)[k]] == Pop
    {
      assert k > 0 ==> ([n] + popList)[k] == popList[k - 1];
    }
    assert PopsOk(ops, [n] + popList);
  }

  lemma FrontLastIndex(tail: seq<nat>)
    requires tail != []
    ensures multiset(tail) == multiset(Front(tail)) + multiset{Last(tail)}
    ensures multiset(tail) == multiset(Refilled(tail)) + multiset{tail[0]}
  {
    FrontLastBag(tail);
    var r := tail[0 := Last(tail)];
    FrontLastBag(r);
    assert multiset(r) == multiset(tail) - multiset{tail[0]} + multiset{Last(tail)};
    assert Last(r) == Last(tail);
  }

  lemma FrontLastBag(list: seq<nat>)
    requires list != []
    ensures multiset(list) == multiset(Front(list)) + multiset{Last(list)}
  {
    assert list == Front(list) + [Last(list)];
  }

  lemma PostponedNext(popList: seq<nat>)
    requires popList != []
    ensures multiset(popList) == multiset{popList[0]} + multiset(popList[1..])
  {
    assert popList == [popList[0]] + popList[1..];
  }

  /** The bookkeeping of a pop: operations move from the tail and the postponed pops to the order. */
  lemma TailPopAccounts(order: seq<nat>, tail: seq<nat>, popList: seq<nat>, n: nat)
    requires Accounted(order, tail, popList, n) && tail != []
    ensures Accounted(order + [Last(tail)] + [n], Front(tail), popList, n + 1)
    ensures popList != [] ==> Accounted(order + [Last(tail)] + [popList[0]], Front(tail), popList[1..], n)
  {
    FrontLastIndex(tail);
    if popList != [] {
      PostponedNext(popList);
    }
  }

  lemma TopPopAccounts(order: seq<nat>, tail: seq<nat>, popList: seq<nat>, n: nat)
    requires Accounted(order, tail, popList, n) && popList != []
    ensures tail == [] ==> Accounted(order + [popList[0]], [], popList[1..], n)
    ensures tail != [] ==> Accounted(order + [popList[0]] + [Last(tail)], Front(tail), popList[1..], n)
    ensures tail != [] ==> Accounted(order + [tail[0]] + [popList[0]], Refilled(tail), popList[1..], n)
  {
    PostponedNext(popList);
    if tail != [] {
      FrontLastIndex(tail);
    }
  }

  lemma BatchTailPop(s0: multiset<Elem>, ops: seq<Operation>, outs: seq<Outcome>, order: seq<nat>, tail: seq<nat>,
                     popList: seq<nat>, n: nat, d: seq<Elem>, m: nat)
    requires Batch(s0, ops, outs, order, tail, popList, n, d, m) && n < |ops| && ops[n] == Pop
    requires m < |d| && Less(d[0], Last(d))
    ensures tail != []
    ensures Batch(s0, ops, outs[n := Popped(Last(d))], order + [Last(tail)] + [n], Front(tail), popList, n + 1, Front(d), m)
  {
    BatchFacts(s0, ops, outs, order, tail, popList, n, d, m);
    hide Progress;
    hide Accounted;
    NotMetYet(order, tail, popList, n);
    ProgressOutcome(s0, ops, outs, order, tail, d, m, n, Popped(Last(d)));
    TailPopped(s0, ops, outs[n := Popped(Last(d))], order, tail, d, m, n);
    TailPopAccounts(order, tail, popList, n);
  }

  /** A postponed pop is taken up and given an outcome. */
  lemma TakeUp(s0: multiset<Elem>, ops: seq<Operation>, outs: seq<Outcome>, order: seq<nat>, tail: seq<nat>,
               popList: seq<nat>, n: nat, d: seq<Elem>, m: nat, out: Outcome)
    requires Batch(s0, ops, outs, order, tail, popList, n, d, m) && popList != []
    ensures popList[0] < |ops| && ops[popList[0]] == Pop
    ensures Progress(s0, ops, outs[popList[0] := out], order, tail, d, m)
    ensures multiset(popList) == multiset{popList[0]} + multiset(popList[1..])
  {
    PostponedOnlyOnce(order, tail, popList, n);
    ProgressOutcome(s0, ops, outs, order, tail, d, m, popList[0], out);
    PostponedNext(popList);
  }

  lemma BatchEmptyPop(s0: multiset<Elem>, ops: seq<Operation>, outs: seq<Outcome>, order: seq<nat>, tail: seq<nat>,
                      popList: seq<nat>, n: nat, d: seq<Elem>, m: nat)
    requires Batch(s0, ops, outs, order, tail, popList, n, d, m) && popList != [] && d == []
    ensures popList[0] < |ops|
    ensures Batch(s0, ops, outs[popList[0] := NothingToPop], order + [popList[0]], tail, popList[1..], n, d, m)
  {
    TakeUp(s0, ops, outs, order, tail, popList, n, d, m, NothingToPop);
    SequentialNext(s0, ops, outs[popList[0] := NothingToPop], order, popList[0]);
  }

  lemma BatchLatePop(s0: multiset<Elem>, ops: seq<Operation>, outs: seq<Outcome>, order: seq<nat>, tail: seq<nat>,
                     popList: seq<nat>, n: nat, d: seq<Elem>, m: nat)
    requires Batch(s0, ops, outs, order, tail, popList, n, d, m) && popList != [] && m < |d| && Less(d[0], Last(d))
    ensures popList[0] < |ops| && tail != []
    ensures Batch(s0, ops, outs[popList[0] := Popped(Last(d))], order + [Last(tail)] + [popList[0]], Front(tail),
                  popList[1..], n, Front(d), m)
  {
    BatchFacts(s0, ops, outs, order, tail, popList, n, d, m);
    hide Progress;
    hide Accounted;
    TakeUp(s0, ops, outs, order, tail, popList, n, d, m, Popped(Last(d)));
    TailPopped(s0, ops, outs[popList[0] := Popped(Last(d))], order, tail, d, m, popList[0]);
    TailPopAccounts(order, tail, popList, n);
  }

  lemma EmptyHeapStays(d: seq<Elem>, d': seq<Elem>, m': nat)
    requires d != [] && RootTaken(d, 0, d', m')
    ensures m' == 0
  {
  }

  lemma BatchTopPop(s0: multiset<Elem>, ops: seq<Operation>, outs: seq<Outcome>, order: seq<nat>, tail: seq<nat>,
                    popList: seq<nat>, n: nat, d: seq<Elem>, m: nat, d': seq<Elem>, m': nat)
    returns (order': seq<nat>, tail': seq<nat>)
    requires Batch(s0, ops, outs, order, tail, popList, n, d, m) && popList != [] && d != [] && RootTaken(d, m, d', m')
    ensures popList[0] < |ops|
    ensures Batch(s0, ops, outs[popList[0] := Popped(d[0])], order', tail', popList[1..], n, d', m')
  {
    BatchFacts(s0, ops, outs, order, tail, popList, n, d, m);
    PopsShorter(ops, popList);
    var p := popList[0];
    TakeUp(s0, ops, outs, order, tail, popList, n, d, m, Popped(d[0]));
    TopPopAccounts(order, tail, popList, n);
    hide Progress;
    hide Accounted;
    hide PopsOk;
    hide RootTaken;
    var outs' := outs[p := Popped(d[0])];
    if m == 0 {
      EmptyHeapStays(d, d', m');
      FirstPopped(s0, ops, outs', order, tail, d, d', p);
      order', tail' := order + [tail[0]] + [p], Refilled(tail);
    } else {
      TopPopped(s0, ops, outs', order, tail, d, m, d', m', p);
      order' := if tail == [] then order + [p] else order + [p] + [Last(tail)];
      tail' := if tail == [] then [] else Front(tail);
    }
  }

  lemma BatchEnds(s0: multiset<Elem>, ops: seq<Operation>, outs: seq<Outcome>, order: seq<nat>, tail: seq<nat>,
                  d: seq<Elem>, m: nat)
    requires Batch(s0, ops, outs, order, tail, [], |ops|, d, m)
    ensures Linearized(s0, ops, outs, order + tail, multiset(d))
    ensures multiset(d) + Total(Takes(outs)) == s0 + Total(Puts(ops))
  {
    hide Total;
    hide Takes;
    hide Puts;
    TailHappens(s0, ops, outs, order, tail, d[m..]);
    assert d == d[..m] + d[m..];
    Balanced(s0, ops, outs, order + tail, multiset(d));
  }

  lemma RootTakenWithoutHeap(d: seq<Elem>)
    requires d != []
    ensures RootTaken(d, 0, Front(if |d| > 1 then d[0 := Last(d)] else d), 0)
  {
  }

  lemma SinkingBegins(d: seq<Elem>, m: nat)
    requires 0 < m <= |d| && HeapOrder(d, m)
    ensures Sinking(d, m, d, 0)
  {
    assert d[..m][0 := d[0]] == d[..m];
  }

  lemma ChildrenOf(cur: nat)
    ensures forall i: nat {:trigger Parent(i)} | 0 < i :: Parent(i) == cur <==> i == 2 * cur + 1 || i == 2 * cur + 2
  {
  }

  /** The better of two children is the best; if the last element beats it, it beats both. */
  lemma BestOfChildren(d: seq<Elem>, m: nat, cur: nat, target: nat, x: Elem)
    requires m <= |d| && 2 * cur + 1 < m
    requires target == if 2 * cur + 2 < m && Less(d[2 * cur + 1], d[2 * cur + 2]) then 2 * cur + 2 else 2 * cur + 1
    ensures BestChild(d, m, cur, target) && (Less(d[target], x) ==> AboveChildren(d, m, cur, x))
  {
    ChildrenOf(cur);
  }

  lemma NoChildren(d: seq<Elem>, m: nat, cur: nat, x: Elem)
    requires m <= |d| && 2 * cur + 1 >= m
    ensures AboveChildren(d, m, cur, x)
  {
    ChildrenOf(cur);
  }

  class ConcurrentPriorityQueue {
    var mark: nat
    var mySize: nat
    var data: seq<Elem>

    /** Everything pushed is in the heap: the state between two batches. */
    ghost predicate Valid()
      reads this
    {
      mark == mySize == |data| && HeapOrder(data, mark)
    }

    /** The range constructor; the default one is the empty range. */
    constructor (range: seq<Elem>)
      ensures Valid() && multiset(data) == multiset(range)
    {
      mark, data, mySize := 0, range, |range|;
      new;
      Heapify();
    }

    method Heapify()
      requires mark <= |data| && HeapOrder(data, mark)
      modifies this`data, this`mark
      ensures mark == |data| == |old(data)| && HeapOrder(data, mark)
      ensures multiset(data) == multiset(old(data))
    {
      if mark == 0 && |data| > 0 {
        mark := 1;
      }
      while mark < |data|
        invariant mark <= |data| == |old(data)| && (|data| > 0 ==> mark > 0)
        invariant HeapOrder(data, mark) && multiset(data) == multiset(old(data))
        decreases |data| - mark
      {
        SiftUp();
        mark := mark + 1;
      }
    }

    /** The inner loop of heapify: pushes the element at `mark` up the heap. */
    method SiftUp()
      requires 0 < mark < |data| && HeapOrder(data, mark)
      modifies this`data
      ensures |data| == |old(data)| && HeapOrder(data, mark + 1) && multiset(data) == multiset(old(data))
    {
      var curPos := mark;
      var toPlace := data[mark];
      assert data[curPos := toPlace] == data;
      GapAtEnd(data, mark);
      while curPos != 0
        invariant curPos <= mark < |data| == |old(data)|
        invariant multiset(data[curPos := toPlace]) == multiset(old(data))
        invariant Gap(data, mark + 1, curPos, toPlace)
        decreases curPos
      {
        var parent := (curPos - 1) / 2;
        assert parent == Parent(curPos);
        if !Less(data[parent], toPlace) {
          break;
        }
        MoveHole(data, curPos, parent, toPlace);
        GapMovesUp(data, mark + 1, curPos, toPlace);
        data := data[curPos := data[parent]];
        curPos := parent;
      }
      GapFilled(data, mark + 1, curPos, toPlace);
      data := data[curPos := toPlace];
    }

    /** The loop of reheap: moves the hole at the root down while a child beats the last element. */
    method SinkHole() returns (curPos: nat)
      requires 0 < mark <= |data| && HeapOrder(data, mark)
      modifies this`data
      ensures |data| == |old(data)| && Last(data) == old(Last(data)) && curPos < |data|
      ensures Sinking(old(data), mark, data, curPos) && AboveChildren(data, mark, curPos, old(Last(data)))
    {
      hide Sinking;
      hide HeapOrder;
      hide BestChild;
      hide AboveChildren;
      var child := 1;
      curPos := 0;
      SinkingBegins(data, mark);
      while child < mark
        invariant child == 2 * curPos + 1 && |data| == |old(data)| && curPos < mark && Last(data) == old(Last(data))
        invariant Sinking(old(data), mark, data, curPos)
        decreases mark - child
      {
        var target := child;
        if child + 1 < mark && Less(data[child], data[child + 1]) {
          target := target + 1;
        }
        BestOfChildren(data, mark, curPos, target, data[|data| - 1]);
        if Less(data[target], data[|data| - 1]) {
          return;
        }
        Sinks(old(data), mark, data, curPos, target);
        data := data[curPos := data[target]];
        curPos := target;
        child := 2 * curPos + 1;
      }
      NoChildren(data, mark, curPos, data[|data| - 1]);
    }

    /** Takes the root out by pushing the last element down the heap from there. */
    method Reheap()
      requires data != [] && mark <= |data| && HeapOrder(data, mark)
      modifies this`data, this`mark
      ensures RootTaken(old(data), old(mark), data, mark)
    {
      hide Sinking;
      hide RootTaken;
      hide HeapOrder;
      hide AboveChildren;
      var curPos := 0;
      if mark > 0 {
        curPos := SinkHole();
        if mark < |data| {
          SinkingEndsBelowTail(old(data), mark, data, curPos);
        } else if curPos == |data| - 1 {
          SinkingEndsAtLast(old(data), data, curPos);
        } else {
          SinkingEndsInHeap(old(data), data, curPos);
        }
      } else {
        RootTakenWithoutHeap(data);
      }
      if curPos != |data| - 1 {
        data := data[curPos := data[|data| - 1]];
      }
      data := data[..|data| - 1];
      if mark > |data| {
        mark := |data|;
      }
    }

    /** The batch handler.  The first pass pushes, and pops what can be taken off the tail; the
        second serves the pops postponed, last one first; what is left is merged into the heap. */
    method HandleOperations(ops: seq<Operation>) returns (outs: seq<Outcome>)
      requires Valid()
      modifies this
      ensures Valid() && forall x | x in data :: x.prio <= data[0].prio
      ensures exists order: seq<nat> :: Linearized(multiset(old(data)), ops, outs, order, multiset(data))
      ensures multiset(data) + Total(Takes(outs)) == multiset(old(data)) + Total(Puts(ops))
    {
      hide Batch;
      hide Linearized;
      hide HeapOrder;
      hide Total;
      hide Takes;
      hide Puts;
      ghost var s0 := multiset(data);
      ghost var order: seq<nat>, tail: seq<nat> := [], [];
      var popList: seq<nat> := [];
      outs := seq(|ops|, _ => Waiting);
      BatchBegins(ops, outs, data);
      var i := 0;
      while i < |ops|
        invariant i <= |ops| == |outs| && mark <= |data| == mySize
        invariant Batch(s0, ops, outs, order, tail, popList, i, data, mark)
      {
        match ops[i] {
          case Pop =>
            if mark < |data| && Less(data[0], data[|data| - 1]) {
              BatchTailPop(s0, ops, outs, order, tail, popList, i, data, mark);
              order, tail := order + [Last(tail)] + [i], Front(tail);
              outs := outs[i := Popped(data[|data| - 1])];
              mySize := mySize - 1;
              data := data[..|data| - 1];
            } else {
              BatchPostpone(s0, ops, outs, order, tail, popList, i, data, mark);
              popList := [i] + popList;
            }
          case Push(e, fits) =>
            if fits {
              BatchPush(s0, ops, outs, order, tail, popList, i, data, mark, e);
              tail := tail + [i];
              data := data + [e];
              mySize := mySize + 1;
              outs := outs[i := Pushed];
            } else {
              BatchPushFails(s0, ops, outs, order, tail, popList, i, data, mark);
              order := order + [i];
              outs := outs[i := PushFailed];
            }
        }
        i := i + 1;
      }
      outs, order, tail := ServePostponed(s0, ops, outs, order, tail, popList);
      BatchEnds(s0, ops, outs, order, tail, data, mark);
      if mark < |data| {
        Heapify();
      }
      FirstIsMax(data);
    }

    /** The second pass. */
    method ServePostponed(ghost s0: multiset<Elem>, ghost ops: seq<Operation>, outs0: seq<Outcome>, ghost order0: seq<nat>,
                          ghost tail0: seq<nat>, popList0: seq<nat>)
      returns (outs: seq<Outcome>, ghost order: seq<nat>, ghost tail: seq<nat>)
      requires mark <= |data| == mySize && Batch(s0, ops, outs0, order0, tail0, popList0, |ops|, data, mark)
      modifies this
      ensures mark <= |data| == mySize && HeapOrder(data, mark) && Batch(s0, ops, outs, order, tail, [], |ops|, data, mark)
    {
      hide Batch;
      var popList := popList0;
      outs, order, tail := outs0, order0, tail0;
      while popList != []
        invariant mark <= |data| == mySize && Batch(s0, ops, outs, order, tail, popList, |ops|, data, mark)
        decreases |popList|
      {
        BatchFacts(s0, ops, outs, order, tail, popList, |ops|, data, mark);
        var p := popList[0];
        ghost var d, m := data, mark;
        if |data| == 0 {
          BatchEmptyPop(s0, ops, outs, order, tail, popList, |ops|, data, mark);
          order := order + [p];
          outs := outs[p := NothingToPop];
        } else if mark < |data| && Less(data[0], data[|data| - 1]) {
          BatchLatePop(s0, ops, outs, order, tail, popList, |ops|, data, mark);
          order, tail := order + [Last(tail)] + [p], Front(tail);
          outs := outs[p := Popped(data[|data| - 1])];
          mySize := mySize - 1;
          data := data[..|data| - 1];
        } else {
          var top := data[0];
          mySize := mySize - 1;
          Reheap();
          order, tail := BatchTopPop(s0, ops, outs, order, tail, popList, |ops|, d, m, data, mark);
          outs := outs[p := Popped(top)];
        }
        popList := popList[1..];
      }
      BatchFacts(s0, ops, outs, order, tail, popList, |ops|, data, mark);
    }
  }
}
