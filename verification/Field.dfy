/** Arithmetic modulo 2^255 - 19 in ten signed limbs of alternately 26 and 25 bits. */
module Field {
  import opened Arithmetic
  import opened Limbs

  /** The field prime 2^255 - 19. */
  const P: int := 0x7fffffffffffffffffffffffffffffffffffffffffffffffffffffffffffffed

  /** The weights of the limbs: 2^26, 2^51, 2^77, 2^102, 2^128, 2^153, 2^179, 2^204, 2^230. */
  const E1: int := 0x4000000
  const E2: int := 0x8000000000000
  const E3: int := 0x20000000000000000000
  const E4: int := 0x40000000000000000000000000
  const E5: int := 0x100000000000000000000000000000000
  const E6: int := 0x200000000000000000000000000000000000000
  const E7: int := 0x800000000000000000000000000000000000000000000
  const E8: int := 0x1000000000000000000000000000000000000000000000000000
  const E9: int := 0x4000000000000000000000000000000000000000000000000000000000

  /** Ten limbs as a number. */
  function Num10(c0: int, c1: int, c2: int, c3: int, c4: int, c5: int, c6: int, c7: int, c8: int, c9: int): int {
    c0 + E1 * c1 + E2 * c2 + E3 * c3 + E4 * c4 + E5 * c5 + E6 * c6 + E7 * c7 + E8 * c8 + E9 * c9
  }

  function Num(s: seq<int>): int
    requires |s| == 10
  {
    Num10(s[0], s[1], s[2], s[3], s[4], s[5], s[6], s[7], s[8], s[9])
  }

  // ---- products ----

  /** x times ten limbs, limb by limb. */
  function RowNum(x: int, c0: int, c1: int, c2: int, c3: int, c4: int, c5: int, c6: int, c7: int, c8: int,
                  c9: int): int {
    RowLow(x, c0, c1, c2, c3, c4) + RowHigh(x, c5, c6, c7, c8, c9)
  }

  function RowLow(x: int, c0: int, c1: int, c2: int, c3: int, c4: int): int {
    x * c0 + E1 * (x * c1) + E2 * (x * c2) + E3 * (x * c3) + E4 * (x * c4)
  }

  function RowHigh(x: int, c5: int, c6: int, c7: int, c8: int, c9: int): int {
    E5 * (x * c5) + E6 * (x * c6) + E7 * (x * c7) + E8 * (x * c8) + E9 * (x * c9)
  }

  lemma Spread(x: int, c0: int, c1: int, c2: int, c3: int, c4: int, c5: int, c6: int, c7: int, c8: int, c9: int)
    ensures RowNum(x, c0, c1, c2, c3, c4, c5, c6, c7, c8, c9) == x * Num10(c0, c1, c2, c3, c4, c5, c6, c7, c8, c9)
  {
  }

  /** One limb x of f against all of g: the c put x * g into place modulo P. */
  lemma Row(x: int, c0: int, c1: int, c2: int, c3: int, c4: int, c5: int, c6: int, c7: int, c8: int, c9: int, e: int,
            n: int, s: int)
    requires Num10(c0, c1, c2, c3, c4, c5, c6, c7, c8, c9) == e * n - P * s
    ensures RowNum(x, c0, c1, c2, c3, c4, c5, c6, c7, c8, c9) == e * (x * n) - P * (x * s)
  {
    Spread(x, c0, c1, c2, c3, c4, c5, c6, c7, c8, c9);
    RowProduct(x, Num10(c0, c1, c2, c3, c4, c5, c6, c7, c8, c9), n, e, s, P);
  }

  lemma RowProduct(x: int, v: int, g: int, e: int, s: int, p: int)
    requires v == e * g - p * s
    ensures x * v == e * (x * g) - p * (x * s)
  {
  }

  // ---- the product ----

  /** What limb i of f adds to coefficient k of f * g, with 2^255 replaced by 19. */
  function Term(f: seq<int>, g: seq<int>, k: nat, i: nat): int
    requires |f| == 10 && |g| == 10 && k < 10 && i < 10
  {
    if i <= k then
      if i % 2 == 1 && (k - i) % 2 == 1 then 2 * (f[i] * g[k - i]) else f[i] * g[k - i]
    else
      if i % 2 == 1 && (k + 10 - i) % 2 == 1 then 38 * (f[i] * g[k + 10 - i]) else 19 * (f[i] * g[k + 10 - i])
  }

  /** The part of coefficient k that comes from limb i of f and the ones above it. */
  function CoefFrom(f: seq<int>, g: seq<int>, k: nat, i: nat): int
    requires |f| == 10 && |g| == 10 && k < 10 && i <= 10
    decreases 10 - i
  {
    if i == 10 then 0 else Term(f, g, k, i) + CoefFrom(f, g, k, i + 1)
  }

  /** Coefficient k of f * g. */
  function Coef(f: seq<int>, g: seq<int>, k: nat): int
    requires |f| == 10 && |g| == 10 && k < 10
  {
    CoefFrom(f, g, k, 0)
  }

  function TermsOf(f: seq<int>, g: seq<int>, i: nat): (s: seq<int>)
    requires |f| == 10 && |g| == 10 && i < 10
    ensures |s| == 10
  {
    seq(10, k requires 0 <= k < 10 => Term(f, g, k, i))
  }

  function CoefsFrom(f: seq<int>, g: seq<int>, i: nat): (s: seq<int>)
    requires |f| == 10 && |g| == 10 && i <= 10
    ensures |s| == 10
  {
    seq(10, k requires 0 <= k < 10 => CoefFrom(f, g, k, i))
  }

  lemma NumAdd(s: seq<int>, t: seq<int>, u: seq<int>)
    requires |s| == |t| == |u| == 10 && forall k | 0 <= k < 10 :: s[k] == t[k] + u[k]
    ensures Num(s) == Num(t) + Num(u)
  {
  }

  lemma Row0(f: seq<int>, g: seq<int>) returns (q: int)
    requires |f| == 10 && |g| == 10
    ensures Num(TermsOf(f, g, 0)) == (f[0] * Num(g)) - P * q
  {
    var s := 0;
    Row(f[0], g[0], g[1], g[2], g[3], g[4], g[5], g[6], g[7], g[8], g[9], 1, Num(g), s);
    q := f[0] * s;
  }

  lemma Row1(f: seq<int>, g: seq<int>) returns (q: int)
    requires |f| == 10 && |g| == 10
    ensures Num(TermsOf(f, g, 1)) == E1 * (f[1] * Num(g)) - P * q
  {
    var s := 2 * g[9];
    Row(f[1], 38 * g[9], g[0], 2 * g[1], g[2], 2 * g[3], g[4], 2 * g[5], g[6], 2 * g[7], g[8], E1, Num(g), s);
    q := f[1] * s;
  }

  lemma Row2(f: seq<int>, g: seq<int>) returns (q: int)
    requires |f| == 10 && |g| == 10
    ensures Num(TermsOf(f, g, 2)) == E2 * (f[2] * Num(g)) - P * q
  {
    var s := g[8] + E1 * g[9];
    Row(f[2], 19 * g[8], 19 * g[9], g[0], g[1], g[2], g[3], g[4], g[5], g[6], g[7], E2, Num(g), s);
    q := f[2] * s;
  }

  lemma Row3(f: seq<int>, g: seq<int>) returns (q: int)
    requires |f| == 10 && |g| == 10
    ensures Num(TermsOf(f, g, 3)) == E3 * (f[3] * Num(g)) - P * q
  {
    var s := 2 * g[7] + E1 * g[8] + E2 * 2 * g[9];
    Row(f[3], 38 * g[7], 19 * g[8], 38 * g[9], g[0], 2 * g[1], g[2], 2 * g[3], g[4], 2 * g[5], g[6], E3, Num(g), s);
    q := f[3] * s;
  }

  lemma Row4(f: seq<int>, g: seq<int>) returns (q: int)
    requires |f| == 10 && |g| == 10
    ensures Num(TermsOf(f, g, 4)) == E4 * (f[4] * Num(g)) - P * q
  {
    var s := g[6] + E1 * g[7] + E2 * g[8] + E3 * g[9];
    Row(f[4], 19 * g[6], 19 * g[7], 19 * g[8], 19 * g[9], g[0], g[1], g[2], g[3], g[4], g[5], E4, Num(g), s);
    q := f[4] * s;
  }

  lemma Row5(f: seq<int>, g: seq<int>) returns (q: int)
    requires |f| == 10 && |g| == 10
    ensures Num(TermsOf(f, g, 5)) == E5 * (f[5] * Num(g)) - P * q
  {
    var s := 2 * g[5] + E1 * g[6] + E2 * 2 * g[7] + E3 * g[8] + E4 * 2 * g[9];
    Row(f[5], 38 * g[5], 19 * g[6], 38 * g[7], 19 * g[8], 38 * g[9], g[0], 2 * g[1], g[2], 2 * g[3], g[4], E5, Num(g),
        s);
    q := f[5] * s;
  }

  lemma Row6(f: seq<int>, g: seq<int>) returns (q: int)
    requires |f| == 10 && |g| == 10
    ensures Num(TermsOf(f, g, 6)) == E6 * (f[6] * Num(g)) - P * q
  {
    var s := g[4] + E1 * g[5] + E2 * g[6] + E3 * g[7] + E4 * g[8] + E5 * g[9];
    Row(f[6], 19 * g[4], 19 * g[5], 19 * g[6], 19 * g[7], 19 * g[8], 19 * g[9], g[0], g[1], g[2], g[3], E6, Num(g), s);
    q := f[6] * s;
  }

  lemma Row7(f: seq<int>, g: seq<int>) returns (q: int)
    requires |f| == 10 && |g| == 10
    ensures Num(TermsOf(f, g, 7)) == E7 * (f[7] * Num(g)) - P * q
  {
    var s := 2 * g[3] + E1 * g[4] + E2 * 2 * g[5] + E3 * g[6] + E4 * 2 * g[7] + E5 * g[8] + E6 * 2 * g[9];
    Row(f[7], 38 * g[3], 19 * g[4], 38 * g[5], 19 * g[6], 38 * g[7], 19 * g[8], 38 * g[9], g[0], 2 * g[1], g[2], E7,
        Num(g), s);
    q := f[7] * s;
  }

  lemma Row8(f: seq<int>, g: seq<int>) returns (q: int)
    requires |f| == 10 && |g| == 10
    ensures Num(TermsOf(f, g, 8)) == E8 * (f[8] * Num(g)) - P * q
  {
    var s := g[2] + E1 * g[3] + E2 * g[4] + E3 * g[5] + E4 * g[6] + E5 * g[7] + E6 * g[8] + E7 * g[9];
    Row(f[8], 19 * g[2], 19 * g[3], 19 * g[4], 19 * g[5], 19 * g[6], 19 * g[7], 19 * g[8], 19 * g[9], g[0], g[1], E8,
        Num(g), s);
    q := f[8] * s;
  }

  lemma Row9(f: seq<int>, g: seq<int>) returns (q: int)
    requires |f| == 10 && |g| == 10
    ensures Num(TermsOf(f, g, 9)) == E9 * (f[9] * Num(g)) - P * q
  {
    var s := 2 * g[1] + E1 * g[2] + E2 * 2 * g[3] + E3 * g[4] + E4 * 2 * g[5] + E5 * g[6] + E6 * 2 * g[7] + E7 * g[8]
        + E8 * 2 * g[9];
    Row(f[9], 38 * g[1], 19 * g[2], 38 * g[3], 19 * g[4], 38 * g[5], 19 * g[6], 38 * g[7], 19 * g[8], 38 * g[9], g[0],
        E9, Num(g), s);
    q := f[9] * s;
  }

  /** The weight of limb i. */
  function Weight(i: nat): int
    requires i < 10
  {
    match i
    case 0 => 1 case 1 => E1 case 2 => E2 case 3 => E3 case 4 => E4
    case 5 => E5 case 6 => E6 case 7 => E7 case 8 => E8 case _ => E9
  }

  /** One limb of f against all of g, modulo P. */
  lemma AnyRow(f: seq<int>, g: seq<int>, i: nat) returns (q: int)
    requires |f| == 10 && |g| == 10 && i < 10
    ensures Num(TermsOf(f, g, i)) == Weight(i) * (f[i] * Num(g)) - P * q
  {
    match i
    case 0 => q := Row0(f, g);
    case 1 => q := Row1(f, g);
    case 2 => q := Row2(f, g);
    case 3 => q := Row3(f, g);
    case 4 => q := Row4(f, g);
    case 5 => q := Row5(f, g);
    case 6 => q := Row6(f, g);
    case 7 => q := Row7(f, g);
    case 8 => q := Row8(f, g);
    case _ => q := Row9(f, g);
  }

  /** Limbs i and above of f times n. */
  function Tail(f: seq<int>, n: int, i: nat): int
    requires |f| == 10 && i <= 10
    decreases 10 - i
  {
    if i == 10 then 0 else Weight(i) * (f[i] * n) + Tail(f, n, i + 1)
  }

  lemma {:induction false} CoefsCongruent(f: seq<int>, g: seq<int>, i: nat) returns (q: int)
    requires |f| == 10 && |g| == 10 && i <= 10
    ensures Num(CoefsFrom(f, g, i)) == Tail(f, Num(g), i) - P * q
    decreases 10 - i
  {
    if i == 10 {
      q := 0;
    } else {
      var q0 := AnyRow(f, g, i);
      var q1 := CoefsCongruent(f, g, i + 1);
      NumAdd(CoefsFrom(f, g, i), TermsOf(f, g, i), CoefsFrom(f, g, i + 1));
      q := q0 + q1;
    }
  }

  lemma TailIsProduct(f: seq<int>, n: int)
    requires |f| == 10
    ensures Tail(f, n, 0) == n * Num(f)
  {
    assert Tail(f, n, 9) == E9 * (f[9] * n);
    assert Tail(f, n, 8) == E8 * (f[8] * n) + Tail(f, n, 9);
    assert Tail(f, n, 7) == E7 * (f[7] * n) + Tail(f, n, 8);
    assert Tail(f, n, 6) == E6 * (f[6] * n) + Tail(f, n, 7);
    assert Tail(f, n, 5) == E5 * (f[5] * n) + Tail(f, n, 6);
    assert Tail(f, n, 4) == E4 * (f[4] * n) + Tail(f, n, 5);
    assert Tail(f, n, 3) == E3 * (f[3] * n) + Tail(f, n, 4);
    assert Tail(f, n, 2) == E2 * (f[2] * n) + Tail(f, n, 3);
    assert Tail(f, n, 1) == E1 * (f[1] * n) + Tail(f, n, 2);
    Spread(n, f[0], f[1], f[2], f[3], f[4], f[5], f[6], f[7], f[8], f[9]);
  }

  /** The ten coefficients of f * g as limbs. */
  function Coefs(f: seq<int>, g: seq<int>): (s: seq<int>)
    requires |f| == 10 && |g| == 10
    ensures |s| == 10
  {
    CoefsFrom(f, g, 0)
  }

  /** The coefficients of f * g stand for the product modulo P. */
  lemma ProductCongruent(f: seq<int>, g: seq<int>) returns (q: int)
    requires |f| == 10 && |g| == 10
    ensures Num(Coefs(f, g)) == Num(f) * Num(g) - P * q
  {
    q := CoefsCongruent(f, g, 0);
    TailIsProduct(f, Num(g));
    Associate(1, Num(f), Num(g));
  }

  // ---- the coefficients written out ----

  lemma Unroll(f: seq<int>, g: seq<int>, k: nat)
    requires |f| == 10 && |g| == 10 && k < 10
    ensures Coef(f, g, k)
            == Term(f, g, k, 0) + Term(f, g, k, 1) + Term(f, g, k, 2) + Term(f, g, k, 3) + Term(f, g, k, 4)
               + Term(f, g, k, 5) + Term(f, g, k, 6) + Term(f, g, k, 7) + Term(f, g, k, 8) + Term(f, g, k, 9)
  {
    assert CoefFrom(f, g, k, 9) == Term(f, g, k, 9);
    assert CoefFrom(f, g, k, 8) == Term(f, g, k, 8) + CoefFrom(f, g, k, 9);
    assert CoefFrom(f, g, k, 7) == Term(f, g, k, 7) + CoefFrom(f, g, k, 8);
    assert CoefFrom(f, g, k, 6) == Term(f, g, k, 6) + CoefFrom(f, g, k, 7);
    assert CoefFrom(f, g, k, 5) == Term(f, g, k, 5) + CoefFrom(f, g, k, 6);
    assert CoefFrom(f, g, k, 4) == Term(f, g, k, 4) + CoefFrom(f, g, k, 5);
    assert CoefFrom(f, g, k, 3) == Term(f, g, k, 3) + CoefFrom(f, g, k, 4);
    assert CoefFrom(f, g, k, 2) == Term(f, g, k, 2) + CoefFrom(f, g, k, 3);
    assert CoefFrom(f, g, k, 1) == Term(f, g, k, 1) + CoefFrom(f, g, k, 2);
  }

  lemma Coef0(f: seq<int>, g: seq<int>)
    requires |f| == 10 && |g| == 10
    ensures Coef(f, g, 0)
            == f[0] * g[0] + 38 * (f[1] * g[9]) + 19 * (f[2] * g[8]) + 38 * (f[3] * g[7]) + 19 * (f[4] * g[6])
               + 38 * (f[5] * g[5]) + 19 * (f[6] * g[4]) + 38 * (f[7] * g[3]) + 19 * (f[8] * g[2]) + 38 * (f[9] * g[1])
  {
    Unroll(f, g, 0);
  }

  lemma Coef1(f: seq<int>, g: seq<int>)
    requires |f| == 10 && |g| == 10
    ensures Coef(f, g, 1)
            == f[0] * g[1] + f[1] * g[0] + 19 * (f[2] * g[9]) + 19 * (f[3] * g[8]) + 19 * (f[4] * g[7])
               + 19 * (f[5] * g[6]) + 19 * (f[6] * g[5]) + 19 * (f[7] * g[4]) + 19 * (f[8] * g[3]) + 19 * (f[9] * g[2])
  {
    Unroll(f, g, 1);
  }

  lemma Coef2(f: seq<int>, g: seq<int>)
    requires |f| == 10 && |g| == 10
    ensures Coef(f, g, 2)
            == f[0] * g[2] + 2 * (f[1] * g[1]) + f[2] * g[0] + 38 * (f[3] * g[9]) + 19 * (f[4] * g[8])
               + 38 * (f[5] * g[7]) + 19 * (f[6] * g[6]) + 38 * (f[7] * g[5]) + 19 * (f[8] * g[4]) + 38 * (f[9] * g[3])
  {
    Unroll(f, g, 2);
  }

  lemma Coef3(f: seq<int>, g: seq<int>)
    requires |f| == 10 && |g| == 10
    ensures Coef(f, g, 3)
            == f[0] * g[3] + f[1] * g[2] + f[2] * g[1] + f[3] * g[0] + 19 * (f[4] * g[9])
               + 19 * (f[5] * g[8]) + 19 * (f[6] * g[7]) + 19 * (f[7] * g[6]) + 19 * (f[8] * g[5]) + 19 * (f[9] * g[4])
  {
    Unroll(f, g, 3);
  }

  lemma Coef4(f: seq<int>, g: seq<int>)
    requires |f| == 10 && |g| == 10
    ensures Coef(f, g, 4)
            == f[0] * g[4] + 2 * (f[1] * g[3]) + f[2] * g[2] + 2 * (f[3] * g[1]) + f[4] * g[0]
               + 38 * (f[5] * g[9]) + 19 * (f[6] * g[8]) + 38 * (f[7] * g[7]) + 19 * (f[8] * g[6]) + 38 * (f[9] * g[5])
  {
    Unroll(f, g, 4);
  }

  lemma Coef5(f: seq<int>, g: seq<int>)
    requires |f| == 10 && |g| == 10
    ensures Coef(f, g, 5)
            == f[0] * g[5] + f[1] * g[4] + f[2] * g[3] + f[3] * g[2] + f[4] * g[1]
               + f[5] * g[0] + 19 * (f[6] * g[9]) + 19 * (f[7] * g[8]) + 19 * (f[8] * g[7]) + 19 * (f[9] * g[6])
  {
    Unroll(f, g, 5);
  }

  lemma Coef6(f: seq<int>, g: seq<int>)
    requires |f| == 10 && |g| == 10
    ensures Coef(f, g, 6)
            == f[0] * g[6] + 2 * (f[1] * g[5]) + f[2] * g[4] + 2 * (f[3] * g[3]) + f[4] * g[2]
               + 2 * (f[5] * g[1]) + f[6] * g[0] + 38 * (f[7] * g[9]) + 19 * (f[8] * g[8]) + 38 * (f[9] * g[7])
  {
    Unroll(f, g, 6);
  }

  lemma Coef7(f: seq<int>, g: seq<int>)
    requires |f| == 10 && |g| == 10
    ensures Coef(f, g, 7)
            == f[0] * g[7] + f[1] * g[6] + f[2] * g[5] + f[3] * g[4] + f[4] * g[3]
               + f[5] * g[2] + f[6] * g[1] + f[7] * g[0] + 19 * (f[8] * g[9]) + 19 * (f[9] * g[8])
  {
    Unroll(f, g, 7);
  }

  lemma Coef8(f: seq<int>, g: seq<int>)
    requires |f| == 10 && |g| == 10
    ensures Coef(f, g, 8)
            == f[0] * g[8] + 2 * (f[1] * g[7]) + f[2] * g[6] + 2 * (f[3] * g[5]) + f[4] * g[4]
               + 2 * (f[5] * g[3]) + f[6] * g[2] + 2 * (f[7] * g[1]) + f[8] * g[0] + 38 * (f[9] * g[9])
  {
    Unroll(f, g, 8);
  }

  lemma Coef9(f: seq<int>, g: seq<int>)
    requires |f| == 10 && |g| == 10
    ensures Coef(f, g, 9)
            == f[0] * g[9] + f[1] * g[8] + f[2] * g[7] + f[3] * g[6] + f[4] * g[5]
               + f[5] * g[4] + f[6] * g[3] + f[7] * g[2] + f[8] * g[1] + f[9] * g[0]
  {
    Unroll(f, g, 9);
  }

  // ---- the bounds of the source ----

  /** |h| bounded by 1.65*2^26, 1.65*2^25, 1.65*2^26, and so on. */
  const WIDE_EVEN: int := 110729625
  const WIDE_ODD: int := 55364812

  /** |h| bounded by 1.01*2^25, 1.01*2^24, 1.01*2^25, and so on. */
  const TIGHT_EVEN: int := 33889976
  const TIGHT_ODD: int := 16944988

  /** Ten products. */
  const SUM_LIMIT: int := 0x5000_0000_0000_0000

  predicate LimbsWithin(s: seq<int>, even: int, odd: int) {
    |s| == 10
    && Within(s[0], even) && Within(s[1], odd) && Within(s[2], even) && Within(s[3], odd) && Within(s[4], even)
    && Within(s[5], odd) && Within(s[6], even) && Within(s[7], odd) && Within(s[8], even) && Within(s[9], odd)
  }

  /** Small enough that ten of them can be added in 64 bits. */
  type product = x: int | -0x800_0000_0000_0000 <= x <= 0x800_0000_0000_0000

  lemma ProductBound(a: int, b: int, m: int, n: int)
    requires Within(a, m) && Within(b, n) && m >= 0 && n >= 0
    ensures Within(a * b, m * n)
  {
    ProductMonotone(if a >= 0 then a else -a, m, if b >= 0 then b else -b);
    ProductMonotone(if b >= 0 then b else -b, n, m);
  }

  /** The 64-bit product of the 32-bit precomputations a * f and b * g. */
  function Prod(a: int, f: int, b: int, g: int): (p: product)
    requires Within(a * f, 0x1000_0000) && Within(b * g, 0x7fff_ffff)
    ensures p == a * b * (f * g)
  {
    var x: int32 := a * f;
    var y: int32 := b * g;
    ProductBound(x, y, 0x1000_0000, 0x7fff_ffff);
    Rescale(a, f, b, g);
    x as int * y as int
  }

  lemma Rescale(a: int, f: int, b: int, g: int)
    ensures (a * f) * (b * g) == a * b * (f * g)
  {
    Associate(a * f, b, g);
    Associate(b, a, f);
    Associate(a * b, f, g);
  }

  // ---- the 64-bit sums h0 .. h9 of fe_mul ----

  function MulSum0(f: seq<int>, g: seq<int>): (h: int64)
    requires LimbsWithin(f, WIDE_EVEN, WIDE_ODD) && LimbsWithin(g, WIDE_EVEN, WIDE_ODD)
    ensures h == Coef(f, g, 0) && Within(h, SUM_LIMIT)
  {
    Coef0(f, g);
    Prod(1, f[0], 1, g[0]) + Prod(2, f[1], 19, g[9]) + Prod(1, f[2], 19, g[8]) + Prod(2, f[3], 19, g[7])
    + Prod(1, f[4], 19, g[6]) + Prod(2, f[5], 19, g[5]) + Prod(1, f[6], 19, g[4]) + Prod(2, f[7], 19, g[3])
    + Prod(1, f[8], 19, g[2]) + Prod(2, f[9], 19, g[1])
  }

  function MulSum1(f: seq<int>, g: seq<int>): (h: int64)
    requires LimbsWithin(f, WIDE_EVEN, WIDE_ODD) && LimbsWithin(g, WIDE_EVEN, WIDE_ODD)
    ensures h == Coef(f, g, 1) && Within(h, SUM_LIMIT)
  {
    Coef1(f, g);
    Prod(1, f[0], 1, g[1]) + Prod(1, f[1], 1, g[0]) + Prod(1, f[2], 19, g[9]) + Prod(1, f[3], 19, g[8])
    + Prod(1, f[4], 19, g[7]) + Prod(1, f[5], 19, g[6]) + Prod(1, f[6], 19, g[5]) + Prod(1, f[7], 19, g[4])
    + Prod(1, f[8], 19, g[3]) + Prod(1, f[9], 19, g[2])
  }

  function MulSum2(f: seq<int>, g: seq<int>): (h: int64)
    requires LimbsWithin(f, WIDE_EVEN, WIDE_ODD) && LimbsWithin(g, WIDE_EVEN, WIDE_ODD)
    ensures h == Coef(f, g, 2) && Within(h, SUM_LIMIT)
  {
    Coef2(f, g);
    Prod(1, f[0], 1, g[2]) + Prod(2, f[1], 1, g[1]) + Prod(1, f[2], 1, g[0]) + Prod(2, f[3], 19, g[9])
    + Prod(1, f[4], 19, g[8]) + Prod(2, f[5], 19, g[7]) + Prod(1, f[6], 19, g[6]) + Prod(2, f[7], 19, g[5])
    + Prod(1, f[8], 19, g[4]) + Prod(2, f[9], 19, g[3])
  }

  function MulSum3(f: seq<int>, g: seq<int>): (h: int64)
    requires LimbsWithin(f, WIDE_EVEN, WIDE_ODD) && LimbsWithin(g, WIDE_EVEN, WIDE_ODD)
    ensures h == Coef(f, g, 3) && Within(h, SUM_LIMIT)
  {
    Coef3(f, g);
    Prod(1, f[0], 1, g[3]) + Prod(1, f[1], 1, g[2]) + Prod(1, f[2], 1, g[1]) + Prod(1, f[3], 1, g[0])
    + Prod(1, f[4], 19, g[9]) + Prod(1, f[5], 19, g[8]) + Prod(1, f[6], 19, g[7]) + Prod(1, f[7], 19, g[6])
    + Prod(1, f[8], 19, g[5]) + Prod(1, f[9], 19, g[4])
  }

  function MulSum4(f: seq<int>, g: seq<int>): (h: int64)
    requires LimbsWithin(f, WIDE_EVEN, WIDE_ODD) && LimbsWithin(g, WIDE_EVEN, WIDE_ODD)
    ensures h == Coef(f, g, 4) && Within(h, SUM_LIMIT)
  {
    Coef4(f, g);
    Prod(1, f[0], 1, g[4]) + Prod(2, f[1], 1, g[3]) + Prod(1, f[2], 1, g[2]) + Prod(2, f[3], 1, g[1])
    + Prod(1, f[4], 1, g[0]) + Prod(2, f[5], 19, g[9]) + Prod(1, f[6], 19, g[8]) + Prod(2, f[7], 19, g[7])
    + Prod(1, f[8], 19, g[6]) + Prod(2, f[9], 19, g[5])
  }

  function MulSum5(f: seq<int>, g: seq<int>): (h: int64)
    requires LimbsWithin(f, WIDE_EVEN, WIDE_ODD) && LimbsWithin(g, WIDE_EVEN, WIDE_ODD)
    ensures h == Coef(f, g, 5) && Within(h, SUM_LIMIT)
  {
    Coef5(f, g);
    Prod(1, f[0], 1, g[5]) + Prod(1, f[1], 1, g[4]) + Prod(1, f[2], 1, g[3]) + Prod(1, f[3], 1, g[2])
    + Prod(1, f[4], 1, g[1]) + Prod(1, f[5], 1, g[0]) + Prod(1, f[6], 19, g[9]) + Prod(1, f[7], 19, g[8])
    + Prod(1, f[8], 19, g[7]) + Prod(1, f[9], 19, g[6])
  }

  function MulSum6(f: seq<int>, g: seq<int>): (h: int64)
    requires LimbsWithin(f, WIDE_EVEN, WIDE_ODD) && LimbsWithin(g, WIDE_EVEN, WIDE_ODD)
    ensures h == Coef(f, g, 6) && Within(h, SUM_LIMIT)
  {
    Coef6(f, g);
    Prod(1, f[0], 1, g[6]) + Prod(2, f[1], 1, g[5]) + Prod(1, f[2], 1, g[4]) + Prod(2, f[3], 1, g[3])
    + Prod(1, f[4], 1, g[2]) + Prod(2, f[5], 1, g[1]) + Prod(1, f[6], 1, g[0]) + Prod(2, f[7], 19, g[9])
    + Prod(1, f[8], 19, g[8]) + Prod(2, f[9], 19, g[7])
  }

  function MulSum7(f: seq<int>, g: seq<int>): (h: int64)
    requires LimbsWithin(f, WIDE_EVEN, WIDE_ODD) && LimbsWithin(g, WIDE_EVEN, WIDE_ODD)
    ensures h == Coef(f, g, 7) && Within(h, SUM_LIMIT)
  {
    Coef7(f, g);
    Prod(1, f[0], 1, g[7]) + Prod(1, f[1], 1, g[6]) + Prod(1, f[2], 1, g[5]) + Prod(1, f[3], 1, g[4])
    + Prod(1, f[4], 1, g[3]) + Prod(1, f[5], 1, g[2]) + Prod(1, f[6], 1, g[1]) + Prod(1, f[7], 1, g[0])
    + Prod(1, f[8], 19, g[9]) + Prod(1, f[9], 19, g[8])
  }

  function MulSum8(f: seq<int>, g: seq<int>): (h: int64)
    requires LimbsWithin(f, WIDE_EVEN, WIDE_ODD) && LimbsWithin(g, WIDE_EVEN, WIDE_ODD)
    ensures h == Coef(f, g, 8) && Within(h, SUM_LIMIT)
  {
    Coef8(f, g);
    Prod(1, f[0], 1, g[8]) + Prod(2, f[1], 1, g[7]) + Prod(1, f[2], 1, g[6]) + Prod(2, f[3], 1, g[5])
    + Prod(1, f[4], 1, g[4]) + Prod(2, f[5], 1, g[3]) + Prod(1, f[6], 1, g[2]) + Prod(2, f[7], 1, g[1])
    + Prod(1, f[8], 1, g[0]) + Prod(2, f[9], 19, g[9])
  }

  function MulSum9(f: seq<int>, g: seq<int>): (h: int64)
    requires LimbsWithin(f, WIDE_EVEN, WIDE_ODD) && LimbsWithin(g, WIDE_EVEN, WIDE_ODD)
    ensures h == Coef(f, g, 9) && Within(h, SUM_LIMIT)
  {
    Coef9(f, g);
    Prod(1, f[0], 1, g[9]) + Prod(1, f[1], 1, g[8]) + Prod(1, f[2], 1, g[7]) + Prod(1, f[3], 1, g[6])
    + Prod(1, f[4], 1, g[5]) + Prod(1, f[5], 1, g[4]) + Prod(1, f[6], 1, g[3]) + Prod(1, f[7], 1, g[2])
    + Prod(1, f[8], 1, g[1]) + Prod(1, f[9], 1, g[0])
  }
  // ---- the 64-bit sums h0 .. h9 of fe_sq ----

  function SqSum0(f: seq<int>): (h: int64)
    requires LimbsWithin(f, WIDE_EVEN, WIDE_ODD)
    ensures h == Coef(f, f, 0) && Within(h, SUM_LIMIT)
  {
    Coef0(f, f);
    Prod(1, f[0], 1, f[0]) + Prod(2, f[1], 38, f[9]) + Prod(2, f[2], 19, f[8]) + Prod(2, f[3], 38, f[7])
    + Prod(2, f[4], 19, f[6]) + Prod(1, f[5], 38, f[5])
  }

  function SqSum1(f: seq<int>): (h: int64)
    requires LimbsWithin(f, WIDE_EVEN, WIDE_ODD)
    ensures h == Coef(f, f, 1) && Within(h, SUM_LIMIT)
  {
    Coef1(f, f);
    Prod(2, f[0], 1, f[1]) + Prod(1, f[2], 38, f[9]) + Prod(2, f[3], 19, f[8]) + Prod(1, f[4], 38, f[7])
    + Prod(2, f[5], 19, f[6])
  }

  function SqSum2(f: seq<int>): (h: int64)
    requires LimbsWithin(f, WIDE_EVEN, WIDE_ODD)
    ensures h == Coef(f, f, 2) && Within(h, SUM_LIMIT)
  {
    Coef2(f, f);
    Prod(2, f[0], 1, f[2]) + Prod(2, f[1], 1, f[1]) + Prod(2, f[3], 38, f[9]) + Prod(2, f[4], 19, f[8])
    + Prod(2, f[5], 38, f[7]) + Prod(1, f[6], 19, f[6])
  }

  function SqSum3(f: seq<int>): (h: int64)
    requires LimbsWithin(f, WIDE_EVEN, WIDE_ODD)
    ensures h == Coef(f, f, 3) && Within(h, SUM_LIMIT)
  {
    Coef3(f, f);
    Prod(2, f[0], 1, f[3]) + Prod(2, f[1], 1, f[2]) + Prod(1, f[4], 38, f[9]) + Prod(2, f[5], 19, f[8])
    + Prod(1, f[6], 38, f[7])
  }

  function SqSum4(f: seq<int>): (h: int64)
    requires LimbsWithin(f, WIDE_EVEN, WIDE_ODD)
    ensures h == Coef(f, f, 4) && Within(h, SUM_LIMIT)
  {
    Coef4(f, f);
    Prod(2, f[0], 1, f[4]) + Prod(2, f[1], 2, f[3]) + Prod(1, f[2], 1, f[2]) + Prod(2, f[5], 38, f[9])
    + Prod(2, f[6], 19, f[8]) + Prod(1, f[7], 38, f[7])
  }

  function SqSum5(f: seq<int>): (h: int64)
    requires LimbsWithin(f, WIDE_EVEN, WIDE_ODD)
    ensures h == Coef(f, f, 5) && Within(h, SUM_LIMIT)
  {
    Coef5(f, f);
    Prod(2, f[0], 1, f[5]) + Prod(2, f[1], 1, f[4]) + Prod(2, f[2], 1, f[3]) + Prod(1, f[6], 38, f[9])
    + Prod(2, f[7], 19, f[8])
  }

  function SqSum6(f: seq<int>): (h: int64)
    requires LimbsWithin(f, WIDE_EVEN, WIDE_ODD)
    ensures h == Coef(f, f, 6) && Within(h, SUM_LIMIT)
  {
    Coef6(f, f);
    Prod(2, f[0], 1, f[6]) + Prod(2, f[1], 2, f[5]) + Prod(2, f[2], 1, f[4]) + Prod(2, f[3], 1, f[3])
    + Prod(2, f[7], 38, f[9]) + Prod(1, f[8], 19, f[8])
  }

  function SqSum7(f: seq<int>): (h: int64)
    requires LimbsWithin(f, WIDE_EVEN, WIDE_ODD)
    ensures h == Coef(f, f, 7) && Within(h, SUM_LIMIT)
  {
    Coef7(f, f);
    Prod(2, f[0], 1, f[7]) + Prod(2, f[1], 1, f[6]) + Prod(2, f[2], 1, f[5]) + Prod(2, f[3], 1, f[4])
    + Prod(1, f[8], 38, f[9])
  }

  function SqSum8(f: seq<int>): (h: int64)
    requires LimbsWithin(f, WIDE_EVEN, WIDE_ODD)
    ensures h == Coef(f, f, 8) && Within(h, SUM_LIMIT)
  {
    Coef8(f, f);
    Prod(2, f[0], 1, f[8]) + Prod(2, f[1], 2, f[7]) + Prod(2, f[2], 1, f[6]) + Prod(2, f[3], 2, f[5])
    + Prod(1, f[4], 1, f[4]) + Prod(1, f[9], 38, f[9])
  }

  function SqSum9(f: seq<int>): (h: int64)
    requires LimbsWithin(f, WIDE_EVEN, WIDE_ODD)
    ensures h == Coef(f, f, 9) && Within(h, SUM_LIMIT)
  {
    Coef9(f, f);
    Prod(2, f[0], 1, f[9]) + Prod(2, f[1], 1, f[8]) + Prod(2, f[2], 1, f[7]) + Prod(2, f[3], 1, f[6])
    + Prod(2, f[4], 1, f[5])
  }

  // ---- carries ----

  /** The width of limb i, and half its weight. */
  function Span(i: nat): int {
    if i % 2 == 0 then 0x400_0000 else 0x200_0000
  }

  /** (x + half) >> width of limb i. */
  function CarryOf(x: int, i: nat): int {
    if i % 2 == 0 then (x + 0x200_0000) / 0x400_0000 else (x + 0x100_0000) / 0x200_0000
  }

  /** c << width of limb i. */
  function Lifted(c: int, i: nat): int {
    if i % 2 == 0 then c * 0x400_0000 else c * 0x200_0000
  }

  /** Limb i gives the carry c to limb i + 1; limb 9 gives it to limb 0 with factor 19. */
  function Passed(s: seq<int>, i: nat, c: int): seq<int>
    requires |s| == 10 && i < 10
  {
    if i == 9 then s[0 := s[0] + c * 19][9 := s[9] - Lifted(c, 9)]
    else s[i := s[i] - Lifted(c, i)][i + 1 := s[i + 1] + c]
  }

  function Rounded(s: seq<int>, i: nat): seq<int>
    requires |s| == 10 && i < 10
  {
    Passed(s, i, CarryOf(s[i], i))
  }

  /** A carry keeps the number; at limb 9 it takes out a multiple of P. */
  lemma PassedNum(s: seq<int>, i: nat, c: int)
    requires |s| == 10 && i < 10
    ensures Num(Passed(s, i, c)) == Num(s) - (if i == 9 then P * c else 0)
  {
    match i
    case 0 => case 1 => case 2 => case 3 => case 4 => case 5 => case 6 => case 7 => case 8 => case _ =>
  }

  /** How much of x goes and stays. */
  lemma CarrySize(x: int, i: nat, m: int)
    requires Within(x, m) && 0 <= m <= 0x6000_0000_0000_0000
    ensures Within(CarryOf(x, i), m / 0x200_0000 + 1) && Within(CarryOf(x, i), 0x40_0000_0000)
    ensures i % 2 == 0 ==> Within(CarryOf(x, i), m / 0x400_0000 + 1)
    ensures Within(Lifted(CarryOf(x, i), i), 0x7000_0000_0000_0000)
    ensures Within(x - Lifted(CarryOf(x, i), i), Span(i) / 2)
  {
  }

  /** carry = (h[i] + half) >> width, in place; every intermediate value fits 64 bits. */
  method Round(h: array<int64>, i: nat, ghost m: int)
    requires h.Length == 10 && i < 10 && Within(h[i], m) && 0 <= m <= 0x6000_0000_0000_0000
    requires Within(h[(i + 1) % 10], 0x6000_0000_0000_0000)
    modifies h
    ensures h[..] == Rounded(old(h[..]), i)
    ensures Within(h[i], Span(i) / 2)
    ensures i < 9 ==> Within(h[i + 1] as int - old(h[i + 1]) as int, m / Span(i) + 1)
    ensures i == 9 ==> Within(h[0] as int - old(h[0]) as int, 19 * (m / Span(9) + 1))
    ensures forall j | 0 <= j < 10 && j != i && j != (i + 1) % 10 :: h[j] == old(h[j])
  {
    CarrySize(h[i], i, m);
    Give(h, i, CarryOf(h[i], i));
  }

  /** Takes the carry out of limb i and adds it to the next one. */
  method Give(h: array<int64>, i: nat, carry: int64)
    requires h.Length == 10 && i < 10 && Within(carry, 0x40_0000_0000)
    requires Within(Lifted(carry, i), 0x7000_0000_0000_0000) && Within(h[i] - Lifted(carry, i), Span(i))
    requires Within(h[if i == 9 then 0 else i + 1], 0x6000_0000_0000_0000)
    modifies h
    ensures h[..] == Passed(old(h[..]), i, carry)
    ensures h[i] == old(h[i]) - Lifted(carry, i)
    ensures if i == 9 then h[0] == old(h[0]) + carry * 19 else h[i + 1] == old(h[i + 1]) + carry
    ensures forall j | 0 <= j < 10 && j != i && j != (if i == 9 then 0 else i + 1) :: h[j] == old(h[j])
  {
    var shifted: int64 := Lifted(carry, i);
    if i == 9 {
      h[0] := h[0] + carry * 19;
    } else {
      h[i + 1] := h[i + 1] + carry;
    }
    h[i] := h[i] - shifted;
  }

  /** The twelve carries that fe_mul and fe_sq share, four at a time. */
  function ChainA(s: seq<int>): seq<int>
    requires |s| == 10
  {
    Rounded(Rounded(Rounded(Rounded(s, 0), 4), 1), 5)
  }

  function ChainB(s: seq<int>): seq<int>
    requires |s| == 10
  {
    Rounded(Rounded(Rounded(Rounded(s, 2), 6), 3), 7)
  }

  function ChainC(s: seq<int>): seq<int>
    requires |s| == 10
  {
    Rounded(Rounded(Rounded(Rounded(s, 4), 8), 9), 0)
  }

  function Chain(s: seq<int>): seq<int>
    requires |s| == 10
  {
    ChainC(ChainB(ChainA(s)))
  }

  lemma RoundedNum(s: seq<int>, i: nat)
    requires |s| == 10 && i < 10
    ensures Num(Rounded(s, i)) == Num(s) - (if i == 9 then P * CarryOf(s[9], 9) else 0)
  {
    PassedNum(s, i, CarryOf(s[i], i));
  }

  lemma FourRounds(s: seq<int>, i: nat, j: nat, k: nat, l: nat)
    requires |s| == 10 && i < 9 && j < 9 && k < 9 && l < 9
    ensures Num(Rounded(Rounded(Rounded(Rounded(s, i), j), k), l)) == Num(s)
  {
    RoundedNum(s, i);
    RoundedNum(Rounded(s, i), j);
    RoundedNum(Rounded(Rounded(s, i), j), k);
    RoundedNum(Rounded(Rounded(Rounded(s, i), j), k), l);
  }

  lemma ChainNum(s: seq<int>) returns (q: int)
    requires |s| == 10
    ensures Num(Chain(s)) == Num(s) - P * q
  {
    FourRounds(s, 0, 4, 1, 5);
    FourRounds(ChainA(s), 2, 6, 3, 7);
    var b := ChainB(ChainA(s));
    var c := Rounded(Rounded(b, 4), 8);
    RoundedNum(b, 4);
    RoundedNum(Rounded(b, 4), 8);
    RoundedNum(c, 9);
    RoundedNum(Rounded(c, 9), 0);
    q := CarryOf(c[9], 9);
  }

  method CarryChain(h: array<int64>)
    requires h.Length == 10 && (forall j | 0 <= j < 10 :: Within(h[j], SUM_LIMIT))
    modifies h
    ensures h[..] == Chain(old(h[..]))
    ensures LimbsWithin(h[..], TIGHT_EVEN, TIGHT_ODD)
  {
    LowerCarries(h);
    MiddleCarries(h);
    UpperCarries(h);
  }

  method LowerCarries(h: array<int64>)
    requires h.Length == 10 && (forall j | 0 <= j < 10 :: Within(h[j], SUM_LIMIT))
    modifies h
    ensures h[..] == ChainA(old(h[..]))
    ensures Within(h[0], 0x200_0000) && Within(h[1], 0x100_0000) && Within(h[4], 0x200_0000) && Within(h[5], 0x100_0000)
    ensures Within(h[2], 0x5000_0100_0000_0000) && Within(h[6], 0x5000_0100_0000_0000)
    ensures h[3] == old(h[3]) && h[7] == old(h[7]) && h[8] == old(h[8]) && h[9] == old(h[9])
  {
    FirstCarries(h);
    Round(h, 1, 0x5000_0100_0000_0000);
    Round(h, 5, 0x5000_0100_0000_0000);
  }

  method FirstCarries(h: array<int64>)
    requires h.Length == 10 && Within(h[0], SUM_LIMIT) && Within(h[4], SUM_LIMIT)
    requires Within(h[1], SUM_LIMIT) && Within(h[5], SUM_LIMIT)
    modifies h
    ensures h[..] == Rounded(Rounded(old(h[..]), 0), 4)
    ensures Within(h[0], 0x200_0000) && Within(h[4], 0x200_0000)
    ensures Within(h[1], 0x5000_0100_0000_0000) && Within(h[5], 0x5000_0100_0000_0000)
    ensures forall j | 0 <= j < 10 && j != 0 && j != 1 && j != 4 && j != 5 :: h[j] == old(h[j])
  {
    Round(h, 0, SUM_LIMIT);
    Round(h, 4, SUM_LIMIT);
  }

  method MiddleCarries(h: array<int64>)
    requires h.Length == 10 && Within(h[2], 0x5000_0100_0000_0000) && Within(h[6], 0x5000_0100_0000_0000)
    requires Within(h[3], SUM_LIMIT) && Within(h[7], SUM_LIMIT) && Within(h[8], SUM_LIMIT) && Within(h[4], 0x200_0000)
    modifies h
    ensures h[..] == ChainB(old(h[..]))
    ensures Within(h[2], 0x200_0000) && Within(h[3], 0x100_0000) && Within(h[6], 0x200_0000) && Within(h[7], 0x100_0000)
    ensures Within(h[4], 0x40_0000_0000) && Within(h[8], 0x5000_0100_0000_0000)
    ensures h[0] == old(h[0]) && h[1] == old(h[1]) && h[5] == old(h[5]) && h[9] == old(h[9])
  {
    SecondCarries(h);
    Round(h, 3, 0x5000_0100_0000_0000);
    Round(h, 7, 0x5000_0100_0000_0000);
  }

  method SecondCarries(h: array<int64>)
    requires h.Length == 10 && Within(h[2], 0x5000_0100_0000_0000) && Within(h[6], 0x5000_0100_0000_0000)
    requires Within(h[3], SUM_LIMIT) && Within(h[7], SUM_LIMIT)
    modifies h
    ensures h[..] == Rounded(Rounded(old(h[..]), 2), 6)
    ensures Within(h[2], 0x200_0000) && Within(h[6], 0x200_0000)
    ensures Within(h[3], 0x5000_0100_0000_0000) && Within(h[7], 0x5000_0100_0000_0000)
    ensures forall j | 0 <= j < 10 && j != 2 && j != 3 && j != 6 && j != 7 :: h[j] == old(h[j])
  {
    Round(h, 2, 0x5000_0100_0000_0000);
    Round(h, 6, 0x5000_0100_0000_0000);
  }

  method UpperCarries(h: array<int64>)
    requires h.Length == 10 && Within(h[0], 0x200_0000) && Within(h[1], 0x100_0000) && Within(h[2], 0x200_0000)
    requires Within(h[3], 0x100_0000) && Within(h[4], 0x40_0000_0000) && Within(h[5], 0x100_0000)
    requires Within(h[6], 0x200_0000)
    requires Within(h[7], 0x100_0000) && Within(h[8], 0x5000_0100_0000_0000) && Within(h[9], SUM_LIMIT)
    modifies h
    ensures h[..] == ChainC(old(h[..]))
    ensures LimbsWithin(h[..], TIGHT_EVEN, TIGHT_ODD)
  {
    ThirdCarries(h);
    Round(h, 9, 0x5000_0100_0000_0000);
    Round(h, 0, 0x400_0000_0000);
  }

  method ThirdCarries(h: array<int64>)
    requires h.Length == 10 && Within(h[4], 0x40_0000_0000) && Within(h[5], 0x100_0000)
    requires Within(h[8], 0x5000_0100_0000_0000) && Within(h[9], SUM_LIMIT)
    modifies h
    ensures h[..] == Rounded(Rounded(old(h[..]), 4), 8)
    ensures Within(h[4], 0x200_0000) && Within(h[5], 0x100_2000)
    ensures Within(h[8], 0x200_0000) && Within(h[9], 0x5000_0100_0000_0000)
    ensures forall j | 0 <= j < 10 && j != 4 && j != 5 && j != 8 && j != 9 :: h[j] == old(h[j])
  {
    Round(h, 4, 0x40_0000_0000);
    Round(h, 8, 0x5000_0100_0000_0000);
  }

  /** The ten limbs stored back as 32-bit values. */
  method Store(h: array<int32>, t: array<int64>)
    requires h.Length == 10 && t.Length == 10 && LimbsWithin(t[..], TIGHT_EVEN, TIGHT_ODD)
    modifies h
    ensures h[..] == t[..]
  {
    assert t[..][0] == t[0] && t[..][1] == t[1] && t[..][2] == t[2] && t[..][3] == t[3] && t[..][4] == t[4];
    assert t[..][5] == t[5] && t[..][6] == t[6] && t[..][7] == t[7] && t[..][8] == t[8] && t[..][9] == t[9];
    h[0], h[1], h[2], h[3], h[4] := t[0], t[1], t[2], t[3], t[4];
    h[5], h[6], h[7], h[8], h[9] := t[5], t[6], t[7], t[8], t[9];
  }

  /** What both multiplications store is the product modulo P. */
  lemma ChainOfProduct(f: seq<int>, g: seq<int>)
    requires |f| == 10 && |g| == 10
    ensures Num(Chain(Coefs(f, g))) % P == (Num(f) * Num(g)) % P
  {
    var q := ProductCongruent(f, g);
    var r := ChainNum(Coefs(f, g));
    TwiceReduced(Num(f) * Num(g), Num(Coefs(f, g)), Num(Chain(Coefs(f, g))), q, r);
  }

  lemma TwiceReduced(x: int, c: int, y: int, q: int, r: int)
    requires c == x - P * q && y == c - P * r
    ensures y % P == x % P
  {
    SameResidue(x, y, q + r);
  }

  lemma SameResidue(x: int, y: int, q: int)
    requires y == x - P * q
    ensures y % P == x % P
  {
    Distribute(x / P, q, P);
    DivModUnique(y, P, x / P - q, x % P);
  }

  /** h := f * g; h may be f or g. */
  method FeMul(h: array<int32>, f: array<int32>, g: array<int32>)
    requires h.Length == 10 && f.Length == 10 && g.Length == 10
    requires LimbsWithin(f[..], WIDE_EVEN, WIDE_ODD) && LimbsWithin(g[..], WIDE_EVEN, WIDE_ODD)
    modifies h
    ensures h[..] == Chain(Coefs(old(f[..]), old(g[..])))
    ensures Num(h[..]) % P == (old(Num(f[..])) * old(Num(g[..]))) % P
    ensures LimbsWithin(h[..], TIGHT_EVEN, TIGHT_ODD)
  {
    var x, y := f[..], g[..];
    var t := new int64[10];
    t[0], t[1], t[2], t[3], t[4] := MulSum0(x, y), MulSum1(x, y), MulSum2(x, y), MulSum3(x, y), MulSum4(x, y);
    t[5], t[6], t[7], t[8], t[9] := MulSum5(x, y), MulSum6(x, y), MulSum7(x, y), MulSum8(x, y), MulSum9(x, y);
    assert t[..] == Coefs(x, y);
    CarryChain(t);
    Store(h, t);
    ChainOfProduct(x, y);
  }

  /** h := f * f, limb for limb what FeMul(h, f, f) stores; h may be f. */
  method FeSq(h: array<int32>, f: array<int32>)
    requires h.Length == 10 && f.Length == 10 && LimbsWithin(f[..], WIDE_EVEN, WIDE_ODD)
    modifies h
    ensures h[..] == Chain(Coefs(old(f[..]), old(f[..])))
    ensures Num(h[..]) % P == (old(Num(f[..])) * old(Num(f[..]))) % P
    ensures LimbsWithin(h[..], TIGHT_EVEN, TIGHT_ODD)
  {
    var x := f[..];
    var t := new int64[10];
    t[0], t[1], t[2], t[3], t[4] := SqSum0(x), SqSum1(x), SqSum2(x), SqSum3(x), SqSum4(x);
    t[5], t[6], t[7], t[8], t[9] := SqSum5(x), SqSum6(x), SqSum7(x), SqSum8(x), SqSum9(x);
    assert t[..] == Coefs(x, x);
    CarryChain(t);
    Store(h, t);
    ChainOfProduct(x, x);
  }
}
