/** Indices of the lazily split hash table.  A bucket's parent is its index without the
    topmost bit; a hash visits, from the full mask down, a chain of such buckets. */
module BucketChain {
  import opened Common

  /** Table sizes are powers of two. */
  predicate Power(n: nat)
    decreases n
  {
    n == 1 || (n > 1 && n % 2 == 0 && Power(n / 2))
  }

  /** The topmost bit of an index. */
  function Top(i: nat): (p: nat)
    requires i >= 1
    ensures Power(p) && p <= i < 2 * p
    decreases i
  {
    if i == 1 then 1 else 2 * Top(i / 2)
  }

  function Parent(i: nat): (p: nat)
    requires i >= 2
    ensures p < i && p < Top(i) && p + Top(i) == i
  {
    i - Top(i)
  }

  /** The low bits of a hash, bit by bit: `h & (size - 1)`. */
  function Masked(h: nat, size: nat): (r: nat)
    requires Power(size)
    ensures r < size && (h < size ==> r == h)
    decreases size
  {
    if size == 1 then 0 else 2 * Masked(h / 2, size / 2) + h % 2
  }

  lemma {:induction false} MaskedIsRemainder(h: nat, size: nat)
    requires Power(size)
    ensures Masked(h, size) == h % size
    decreases size
  {
    if size > 1 {
      MaskedIsRemainder(h / 2, size / 2);
      RemainderByHalves(h, size / 2);
    }
  }

  lemma RemainderByHalves(h: nat, k: nat)
    requires k > 0
    ensures h % (2 * k) == 2 * (h / 2 % k) + h % 2
  {
    var q, r := h / 2 / k, h / 2 % k;
    assert h == 2 * (k * q + r) + h % 2;
    RemainderIsUnique(h, 2 * k, q, 2 * r + h % 2);
  }

  lemma RemainderIsUnique(x: nat, d: nat, q: nat, r: nat)
    requires r < d && x == d * q + r
    ensures x % d == r
  {
    var p := x / d;
    MultiplesApart(d, p, q);
    MultiplesApart(d, q, p);
  }

  lemma {:induction false} PowersApart(a: nat, b: nat)
    requires Power(a) && Power(b) && a < b
    ensures 2 * a <= b
    decreases b
  {
    if a > 1 {
      PowersApart(a / 2, b / 2);
    }
  }

  lemma {:induction false} TopUnique(i: nat, p: nat)
    requires i >= 1 && Power(p) && p <= i < 2 * p
    ensures Top(i) == p
  {
    if p < Top(i) {
      PowersApart(p, Top(i));
    } else if Top(i) < p {
      PowersApart(Top(i), p);
    }
  }

  /** Masking twice is masking with the smaller mask. */
  lemma {:induction false} MaskTwice(h: nat, a: nat, b: nat)
    requires Power(a) && Power(b) && a <= b
    ensures Masked(Masked(h, b), a) == Masked(h, a)
    decreases a
  {
    if a > 1 {
      assert Masked(h, b) / 2 == Masked(h / 2, b / 2) && Masked(h, b) % 2 == h % 2;
      MaskTwice(h / 2, a / 2, b / 2);
    }
  }

  /** Dropping a topmost bit above the mask does not change the masked value. */
  lemma {:induction false} MaskedParent(j: nat, a: nat)
    requires j >= 2 && Power(a) && a <= Top(j)
    ensures Masked(Parent(j), a) == Masked(j, a)
    decreases j
  {
    if a > 1 && j >= 4 {
      MaskedParent(j / 2, a / 2);
      assert Parent(j) / 2 == Parent(j / 2);
    }
  }

  /** `i` is met on the way from `j` to the root. */
  predicate OnWay(i: nat, j: nat): (r: bool)
    ensures r ==> i <= j
    decreases j
  {
    i == j || (j >= 2 && OnWay(i, Parent(j)))
  }

  /** A bucket is on the way from `j` exactly when the bucket's full mask selects it. */
  lemma {:induction false} OnWayByMask(i: nat, j: nat)
    requires i >= 2
    ensures Power(2 * Top(i)) && (OnWay(i, j) <==> Masked(j, 2 * Top(i)) == i)
    decreases j
  {
    if j >= 2 {
      if Top(i) < Top(j) {
        OnWayByMask(i, Parent(j));
        PowersApart(Top(i), Top(j));
        MaskedParent(j, 2 * Top(i));
      } else if Top(j) < Top(i) {
        PowersApart(Top(j), Top(i));
      }
    }
  }

  lemma {:induction false} OnWayOfHash(i: nat, h: nat, size: nat)
    requires i >= 2 && Power(size) && i < size
    ensures Power(2 * Top(i)) && (OnWay(i, Masked(h, size)) <==> Masked(h, 2 * Top(i)) == i)
  {
    OnWayByMask(i, Masked(h, size));
    PowersApart(Top(i), size);
    MaskTwice(h, 2 * Top(i), size);
  }
}
