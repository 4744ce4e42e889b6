/** Scalar regularization and the Montgomery ladder, over an arbitrary abelian group. */
module Ladder {
  import opened Words
  import opened Bits
  import opened Group

  // ---- regularize_k ----

  /** The scalar the ladder walks: an implicit top bit above the lower `bits` bits of a buffer. */
  function Walked(x: nat, bits: nat): int {
    Dbl(1, bits) + Low(x, bits)
  }

  /** A number with exactly bits + 1 bits is its top bit and its lower bits. */
  lemma WalkedAll(x: nat, bits: nat)
    requires Dbl(1, bits) <= x < Dbl(1, bits + 1)
    ensures Walked(x, bits) == x && Bit(x, bits) == 1
  {
    LowAndShr(x, bits);
    LowBound(x, bits);
    var h := Shr(x, bits);
    if h == 0 {
      DblPositive(bits);
    } else if h >= 2 {
      DblMonotone(2, h, bits);
      DblDbl(1, 1, bits);
    }
  }

  /** A buffer that dropped its carry still holds the lower bits. */
  lemma WalkedCarry(x: nat, bits: nat)
    requires x < Dbl(1, bits)
    ensures Walked(x, bits) == x + Dbl(1, bits) && Shr(x, bits) == 0
  {
    ShrSmall(x, bits);
  }

  /** k + n and k + 2n modulo the buffer; the flag says which of the two has bit `bits` set. */
  lemma RegularSelected(k: nat, n: nat, bits: nat, words: nat, k0: nat, c0: nat, k1: nat, c1: nat, bitSet: bool)
    requires k < n && bits > 0 && Dbl(1, bits - 1) <= n < Dbl(1, bits) && bits <= 64 * words
    requires k0 + c0 * Pow(words) == k + n && k0 < Pow(words) && c0 <= 1
    requires k1 + c1 * Pow(words) == k0 + n && k1 < Pow(words) && c1 <= 1
    requires bitSet <==> Bit(k0, bits) == 1
    ensures var carry := c0 != 0 || (bits < 64 * words && bitSet);
            Walked(if carry then k0 else k1, bits) == k + (if carry then n else 2 * n)
  {
    DblWords(1, words);
    PowIsUp(words);
    if bits == 64 * words {
      if c0 != 0 {
        WalkedCarry(k0, bits);
      } else {
        WalkedCarry(k1, bits);
      }
    } else {
      DblDbl(1, bits + 1, 64 * words - bits - 1);
      DblPositive(64 * words - bits - 1);
      DblMonotone(1, Dbl(1, 64 * words - bits - 1), bits + 1);
      DblDbl(1, 64 * words - bits - 1, bits + 1);
      if k0 >= Dbl(1, bits) {
        WalkedAll(k0, bits);
      } else {
        WalkedCarry(k0, bits);
        WalkedAll(k1, bits);
      }
    }
  }

  /** k0 := k + n, k1 := k + 2n; the result selects the one with a fixed bit length. */
  method RegularizeK(k: array<word>, k0: array<word>, k1: array<word>, n: array<word>, numNBits: nat)
    returns (carry: bool)
    requires numNBits > 0
    requires var words := (numNBits + 63) / 64;
             k.Length >= words && k0.Length == words && k1.Length == words && n.Length >= words
             && Val(k[..words]) < Val(n[..words])
             && Dbl(1, numNBits - 1) <= Val(n[..words]) < Dbl(1, numNBits)
    requires k0 != k1 && k0 != k && k1 != k && k0 != n && k1 != n
    modifies k0, k1
    ensures var words := (numNBits + 63) / 64;
            Walked(Val((if carry then k0 else k1)[..]), numNBits)
            == Val(k[..words]) + (if carry then Val(n[..words]) else 2 * Val(n[..words]))
  {
    var words := (numNBits + 63) / 64;
    var c0 := Add(k0, k, n, words);
    assert k0[..words] == k0[..];
    ghost var bitSet := Bit(Val(k0[..]), numNBits) == 1;
    carry := c0 != 0;
    if !carry && numNBits < words * 64 {
      carry := TestBit(k0, numNBits);
    }
    var c1 := Add(k1, k0, n, words);
    assert k1[..words] == k1[..];
    ValBound(k0[..]);
    ValBound(k1[..]);
    RegularSelected(Val(k[..words]), Val(n[..words]), numNBits, words, Val(k0[..]), c0, Val(k1[..]), c1, bitSet);
  }

  // ---- EccPoint_mult ----

  /** One bit of the scalar: the multiples t and t + 1 become 2t + b and 2t + b + 1. */
  lemma LadderStep<G(!new)>(g: Group<G>, p: G, t: nat, r0: G, r1: G)
    requires Abelian(g) && r0 == Mul(g, t, p) && r1 == Mul(g, t + 1, p)
    ensures g.add(r0, r0) == Mul(g, 2 * t, p)
    ensures g.add(r0, r1) == g.add(r1, r0) == Mul(g, 2 * t + 1, p)
    ensures g.add(r1, r1) == Mul(g, 2 * t + 2, p)
  {
    MulAdd(g, t, t, p);
    MulAdd(g, t, t + 1, p);
    MulAdd(g, t + 1, t + 1, p);
    assert Comm(g, r0, r1);
  }

  /** XYcZ_addC: (x, y) becomes (x - y, x + y). */
  function AddC<G>(g: Group<G>, x: G, y: G): (G, G) {
    (Minus(g, x, y), g.add(x, y))
  }

  /** XYcZ_add: (x, y) becomes (x, x + y). */
  function AddCoZ<G>(g: Group<G>, x: G, y: G): (G, G) {
    (x, g.add(x, y))
  }

  /** The pair of co-Z additions for one bit; bit set doubles R1, bit clear doubles R0. */
  method LadderBit<G(!new)>(g: Group<G>, r: array<G>, bitSet: bool, ghost p: G, ghost t: nat)
    requires Abelian(g) && r.Length == 2 && r[0] == Mul(g, t, p) && r[1] == Mul(g, t + 1, p)
    modifies r
    ensures var t' := 2 * t + (if bitSet then 1 else 0); r[0] == Mul(g, t', p) && r[1] == Mul(g, t' + 1, p)
  {
    LadderStep(g, p, t, r[0], r[1]);
    var nb := if bitSet then 0 else 1;
    SumPlusDifference(g, r[1 - nb], r[nb]);
    var (difference, sum) := AddC(g, r[1 - nb], r[nb]);
    r[1 - nb], r[nb] := difference, sum;
    var (same, doubled) := AddCoZ(g, r[nb], r[1 - nb]);
    r[nb], r[1 - nb] := same, doubled;
  }

  /** R0 = t * p and R1 = R0 + p, where t is the scalar without its lowest i bits. */
  ghost predicate OnLadder<G(!new)>(g: Group<G>, r: seq<G>, p: G, whole: nat, i: nat) {
    |r| == 2 && r[0] == Mul(g, Shr(whole, i), p) && r[1] == Mul(g, Shr(whole, i) + 1, p)
  }

  /** The loop body for bit i. */
  method LadderIndex<G(!new)>(g: Group<G>, r: array<G>, scalar: array<word>, i: nat, ghost p: G, ghost top: nat,
                              ghost whole: nat)
    requires Abelian(g) && i < top <= 64 * scalar.Length && whole == Walked(Val(scalar[..]), top)
    requires r.Length == 2 && OnLadder(g, r[..], p, whole, i + 1)
    modifies r
    ensures OnLadder(g, r[..], p, whole, i)
  {
    var bitSet := TestBit(scalar, i);
    NextBit(Val(scalar[..]), top, i);
    LadderBit(g, r, bitSet, p, Shr(whole, i + 1));
  }

  /** The point of the ladder with numBits bits, the top one implicit. */
  method EccPointMult<G(!new)>(g: Group<G>, point: G, scalar: array<word>, numBits: nat) returns (result: G)
    requires Abelian(g) && numBits >= 2 && numBits - 1 <= 64 * scalar.Length
    ensures Walked(Val(scalar[..]), numBits - 1) >= 0
    ensures result == Mul(g, Walked(Val(scalar[..]), numBits - 1), point)
  {
    ghost var top := numBits - 1;
    StartOfWalk(Val(scalar[..]), top);
    ghost var whole: nat := Walked(Val(scalar[..]), top);
    SmallMultiples(g, point);
    // XYcZ_initial_double leaves 2 * point in R1 and point in R0
    var r := new G[2] (i => if i == 0 then point else g.add(point, point));
    var i := numBits - 2;
    while i > 0
      invariant 0 <= i <= numBits - 2
      invariant OnLadder(g, r[..], point, whole, i + 1)
    {
      LadderIndex(g, r, scalar, i, point, top, whole);
      i := i - 1;
    }
    // the last bit runs the same two additions, with the computation of 1/Z between them
    LadderIndex(g, r, scalar, 0, point, top, whole);
    result := r[0];
  }

  lemma StartOfWalk(x: nat, top: nat)
    ensures Walked(x, top) >= 0 && Shr(Walked(x, top), top) == 1
  {
    DblPositive(top);
    ShrWithTop(x, top, top);
    LowBound(x, top);
    ShrSmall(Low(x, top), top);
  }

  lemma {:induction false} ShrNext(x: nat, i: nat)
    ensures Shr(x, i) == 2 * Shr(x, i + 1) + Bit(x, i)
  {
    ShrShr(x, i, 1);
    assert Shr(Shr(x, i), 1) == Shr(x, i) / 2;
  }

  lemma NextBit(x: nat, top: nat, i: nat)
    requires i < top
    ensures Walked(x, top) >= 0
    ensures Shr(Walked(x, top), i) == 2 * Shr(Walked(x, top), i + 1) + Bit(x, i)
  {
    DblPositive(top);
    ShrWithTop(x, top, i);
    ShrNext(Walked(x, top), i);
  }

  // ---- EccPoint_compute_public_key ----

  /** For a generator of order n the regularized ladder gives k times the generator. */
  method ComputePublicKey<G(!new)>(g: Group<G>, generator: G, k: array<word>, n: array<word>, numNBits: nat)
    returns (result: G)
    requires Abelian(g) && numNBits > 0
    requires var words := (numNBits + 63) / 64;
             k.Length >= words && n.Length >= words
             && Val(k[..words]) < Val(n[..words])
             && Dbl(1, numNBits - 1) <= Val(n[..words]) < Dbl(1, numNBits)
             && Mul(g, Val(n[..words]), generator) == g.zero
    ensures result == Mul(g, Val(k[..(numNBits + 63) / 64]), generator)
  {
    var words := (numNBits + 63) / 64;
    ghost var scalar, order := Val(k[..words]), Val(n[..words]);
    var selected := Regularized(k, n, numNBits, scalar, order);
    ghost var whole := Walked(Val(selected[..]), numNBits);
    OrderDropsOut(g, generator, scalar, order, whole);
    result := EccPointMult(g, generator, selected, numNBits + 1);
  }

  /** The buffer that holds the selected sum. */
  method Regularized(k: array<word>, n: array<word>, numNBits: nat, ghost scalar: nat, ghost order: nat)
    returns (selected: array<word>)
    requires numNBits > 0
    requires var words := (numNBits + 63) / 64;
             k.Length >= words && n.Length >= words && scalar == Val(k[..words]) && order == Val(n[..words])
    requires scalar < order && Dbl(1, numNBits - 1) <= order < Dbl(1, numNBits)
    ensures numNBits <= 64 * selected.Length
    ensures var whole := Walked(Val(selected[..]), numNBits); whole == scalar + order || whole == scalar + 2 * order
  {
    var words := (numNBits + 63) / 64;
    var tmp1, tmp2 := new word[words], new word[words];
    var carry := RegularizeK(k, tmp1, tmp2, n, numNBits);
    selected := if carry then tmp1 else tmp2;
  }

  lemma OrderDropsOut<G(!new)>(g: Group<G>, p: G, k: nat, n: nat, whole: int)
    requires Abelian(g) && Mul(g, n, p) == g.zero && (whole == k + n || whole == k + 2 * n)
    ensures Mul(g, whole, p) == Mul(g, k, p)
  {
    OrderVanishes(g, p, k, n);
  }

  lemma OrderVanishes<G(!new)>(g: Group<G>, p: G, k: nat, n: nat)
    requires Abelian(g) && Mul(g, n, p) == g.zero
    ensures Mul(g, k + n, p) == Mul(g, k, p) && Mul(g, k + 2 * n, p) == Mul(g, k, p)
  {
    MulAdd(g, k, n, p);
    MulAdd(g, k + n, n, p);
    assert Unit(g, Mul(g, k, p));
  }
}
