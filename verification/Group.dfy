/** An arbitrary abelian group, standing in for the points of a curve. */
module Group {

  datatype Group<!G> = Group(zero: G, add: (G, G) -> G, neg: G -> G)

  // Each law is a predicate of its own, so that a proof names the instances it uses.

  ghost predicate Comm<G>(g: Group<G>, x: G, y: G) {
    g.add(x, y) == g.add(y, x)
  }

  ghost predicate Assoc<G>(g: Group<G>, x: G, y: G, z: G) {
    g.add(g.add(x, y), z) == g.add(x, g.add(y, z))
  }

  ghost predicate Unit<G>(g: Group<G>, x: G) {
    g.add(x, g.zero) == x
  }

  ghost predicate Inverse<G>(g: Group<G>, x: G) {
    g.add(x, g.neg(x)) == g.zero
  }

  ghost predicate Abelian<G(!new)>(g: Group<G>) {
    && (forall x, y :: Comm(g, x, y))
    && (forall x, y, z :: Assoc(g, x, y, z))
    && (forall x :: Unit(g, x))
    && (forall x :: Inverse(g, x))
  }

  function Minus<G>(g: Group<G>, x: G, y: G): G {
    g.add(x, g.neg(y))
  }

  /** The multiple n * x. */
  function Mul<G>(g: Group<G>, n: nat, x: G): G {
    if n == 0 then g.zero else g.add(Mul(g, n - 1, x), x)
  }

  /** The multiple k * x for any integer k. */
  function Times<G>(g: Group<G>, k: int, x: G): G {
    if k >= 0 then Mul(g, k, x) else g.neg(Mul(g, -k, x))
  }

  lemma {:induction false} MulAdd<G(!new)>(g: Group<G>, m: nat, n: nat, x: G)
    requires Abelian(g)
    ensures Mul(g, m + n, x) == g.add(Mul(g, m, x), Mul(g, n, x))
  {
    if n == 0 {
      assert Unit(g, Mul(g, m, x));
    } else {
      MulAdd(g, m, n - 1, x);
      assert Assoc(g, Mul(g, m, x), Mul(g, n - 1, x), x);
    }
  }

  lemma SmallMultiples<G(!new)>(g: Group<G>, p: G)
    requires Abelian(g)
    ensures Mul(g, 1, p) == p && Mul(g, 2, p) == g.add(p, p)
  {
    assert Comm(g, g.zero, p) && Unit(g, p);
    assert Mul(g, 1, p) == g.add(Mul(g, 0, p), p);
    assert Mul(g, 2, p) == g.add(Mul(g, 1, p), p);
  }

  lemma Cancel<G(!new)>(g: Group<G>, x: G, y: G)
    requires Abelian(g)
    ensures Minus(g, g.add(x, y), y) == x
    ensures g.add(Minus(g, x, y), y) == x
  {
    assert Assoc(g, x, y, g.neg(y)) && Assoc(g, x, g.neg(y), y) && Comm(g, g.neg(y), y);
    assert Inverse(g, y) && Unit(g, x);
  }

  /** (x + y) + (x - y) == x + x */
  lemma SumPlusDifference<G(!new)>(g: Group<G>, x: G, y: G)
    requires Abelian(g)
    ensures g.add(g.add(x, y), Minus(g, x, y)) == g.add(x, x)
  {
    assert Assoc(g, x, y, Minus(g, x, y)) && Comm(g, y, Minus(g, x, y));
    Cancel(g, x, y);
  }

  lemma NegUnique<G(!new)>(g: Group<G>, x: G, y: G)
    requires Abelian(g) && g.add(x, y) == g.zero
    ensures y == g.neg(x)
  {
    Cancel(g, y, x);
    assert Comm(g, x, y) && Comm(g, g.zero, g.neg(x)) && Unit(g, g.neg(x));
  }

  /** Integer multiples differ by the multiple of the difference. */
  lemma TimesSub<G(!new)>(g: Group<G>, m: nat, n: nat, x: G)
    requires Abelian(g) && n <= m
    ensures Mul(g, m - n, x) == Minus(g, Mul(g, m, x), Mul(g, n, x))
  {
    MulAdd(g, m - n, n, x);
    Cancel(g, Mul(g, m - n, x), Mul(g, n, x));
  }

  lemma NegSub<G(!new)>(g: Group<G>, x: G, y: G)
    requires Abelian(g)
    ensures g.neg(Minus(g, x, y)) == Minus(g, y, x)
    ensures g.neg(g.neg(x)) == x
  {
    Cancel(g, x, y);
    assert Assoc(g, Minus(g, x, y), y, g.neg(x)) && Inverse(g, x);
    NegUnique(g, Minus(g, x, y), Minus(g, y, x));
    assert Comm(g, g.neg(x), x);
    NegUnique(g, g.neg(x), x);
  }

  lemma NegAdd<G(!new)>(g: Group<G>, x: G, y: G)
    requires Abelian(g)
    ensures g.neg(g.add(x, y)) == g.add(g.neg(x), g.neg(y))
  {
    NegSub(g, y, g.zero);
    NegSub(g, x, g.neg(y));
    assert Comm(g, g.neg(y), g.neg(x));
  }

  lemma MixedAdd<G(!new)>(g: Group<G>, m: nat, n: nat, x: G)
    requires Abelian(g)
    ensures Times(g, m - n, x) == Minus(g, Mul(g, m, x), Mul(g, n, x))
  {
    if m >= n {
      TimesSub(g, m, n, x);
    } else {
      TimesSub(g, n, m, x);
      NegSub(g, Mul(g, n, x), Mul(g, m, x));
    }
  }

  /** (j + k) * x == j * x + k * x over the integers. */
  lemma TimesAdd<G(!new)>(g: Group<G>, j: int, k: int, x: G)
    requires Abelian(g)
    ensures Times(g, j + k, x) == g.add(Times(g, j, x), Times(g, k, x))
  {
    if j >= 0 && k >= 0 {
      MulAdd(g, j, k, x);
    } else if j < 0 && k < 0 {
      MulAdd(g, -j, -k, x);
      NegAdd(g, Mul(g, -j, x), Mul(g, -k, x));
    } else if j >= 0 {
      MixedAdd(g, j, -k, x);
    } else {
      MixedAdd(g, k, -j, x);
      assert Comm(g, Times(g, j, x), Times(g, k, x));
    }
  }
}
