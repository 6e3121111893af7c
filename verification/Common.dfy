/** Small notions that several components share. */
module Common {

  datatype Option<T> = None | Some(value: T)

  /** A pointer: null, or the index of what it points to. */
  datatype Ref = Null | To(index: nat)

  function Pow2(n: nat): (p: nat)
    ensures p > 0
  {
    if n == 0 then 1 else 2 * Pow2(n - 1)
  }

  ghost function Below(n: nat): (s: set<nat>)
    ensures |s| == n && forall k: nat :: k in s <==> k < n
  {
    if n == 0 then {} else Below(n - 1) + {n - 1}
  }

  lemma {:induction false} SubsetSmaller(a: set<nat>, b: set<nat>)
    requires a <= b
    ensures |a| <= |b|
  {
    if a != {} {
      var x :| x in a;
      SubsetSmaller(a - {x}, b - {x});
    }
  }

  /** The pointer to the first node of a linked chain, and the one stored in its node `k`. */
  function Head(chain: seq<nat>): Ref {
    if chain == [] then Null else To(chain[0])
  }

  function NextIn(chain: seq<nat>, k: nat): Ref {
    if k + 1 < |chain| then To(chain[k + 1]) else Null
  }

  lemma MultiplesApart(d: nat, p: nat, q: nat)
    ensures p < q ==> d * p + d <= d * q
  {
    if p < q {
      var k: nat := q - p - 1;
      assert d * k >= 0;
      assert q == p + 1 + k;
      assert d * (p + 1 + k) == d * p + d + d * k;
    }
  }

  /** A product by name, so that it is reasoned about by the lemmas below. */
  function Scaled(k: nat, n: nat): nat {
    k * n
  }

  lemma ScaledApart(k: nat, p: nat, q: nat)
    ensures p < q ==> Scaled(k, p) + k <= Scaled(k, q)
  {
    MultiplesApart(k, p, q);
  }

  lemma ScaledTwice(k: nat, n: nat)
    ensures Scaled(2 * k, n) == 2 * Scaled(k, n)
  {
  }
}
