/** Small facts about products, quotients and remainders of naturals,
    stated once so that the layout proofs need no nonlinear reasoning of
    their own. */
module Arith {

  lemma MulSucc(a: nat, c: nat)
    ensures (a + 1) * c == a * c + c
  {
  }

  lemma MulDistrib(a: nat, b: nat, c: nat)
    ensures a * b + a * c == a * (b + c)
  {
  }

  lemma MulAssoc(a: nat, b: nat, c: nat)
    ensures a * b * c == a * (b * c)
  {
  }

  lemma MulMono(a: nat, b: nat, p: nat)
    requires a <= b
    ensures a * p <= b * p
  {
  }

  /** Index `i` of block `x` in a sequence of blocks of length `p`. */
  lemma BlockIndex(n: nat, x: nat, p: nat, i: nat)
    requires i < p && n == x * p + i
    ensures n / p == x && n % p == i
  {
    var q := n / p;
    var r := n % p;
    assert n == q * p + r;
    if q < x {
      MulSucc(q, p);
      MulMono(q + 1, x, p);
      assert false;
    } else if q > x {
      MulSucc(x, p);
      MulMono(x + 1, q, p);
      assert false;
    }
  }

  /** Position `k` past a multiple of `p` has remainder `k`. */
  lemma ModAfterMultiple(a: nat, p: nat, k: nat)
    requires k < p && a % p == 0
    ensures (a + k) % p == k
  {
    var q := a / p;
    assert a == q * p;
    BlockIndex(a + k, q, p, k);
  }

  lemma MultipleMod(j: nat, p: nat)
    requires p > 0
    ensures (j * p) % p == 0
  {
    BlockIndex(j * p, j, p, 0);
  }

  lemma PositiveFactor(a: nat, b: nat)
    requires a * b > 0
    ensures a > 0 && b > 0
  {
  }

  /** An index below `w * p` lies in one of the first `w` blocks of
      length `p`. */
  lemma BlockOf(n: nat, p: nat, w: nat)
    requires p > 0 && n < w * p
    ensures n / p < w && n == n / p * p + n % p
  {
    if n / p >= w {
      MulMono(w, n / p, p);
      assert false;
    }
  }
}
