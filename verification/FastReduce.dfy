/** The special-form reduction modulo the P-256 prime (section D.2.3 of FIPS 186-4), 64-bit words. */
module FastReduce {
  import opened Arithmetic
  import opened Words

  const HALF: int := 0x1_0000_0000

  const P256: int := 0xffffffff00000001000000000000000000000000ffffffffffffffffffffffff

  const TOP: int := 0x1_0000_0000_0000_0000_0000_0000_0000_0000_0000_0000_0000_0000_0000_0000_0000_0000

  // ---- halves of words ----

  function Lo(w: word): nat { w % HALF }

  function Hi(w: word): nat { w / HALF }

  /** (high >> 32) | (low << 32): the halves come from different words, so `|` is a sum. */
  function Join(high: word, low: word): (w: word)
    ensures w == Hi(high) + HALF * Lo(low)
  {
    ShiftUpHalf(low);
    high / HALF + (low * HALF) % BASE
  }

  /** (high & 0xffffffff) | (low << 32) */
  function JoinLow(high: word, low: word): (w: word)
    ensures w == Lo(high) + HALF * Lo(low)
  {
    ShiftUpHalf(low);
    high % HALF + (low * HALF) % BASE
  }

  /** (high >> 32) | (top & 0xffffffff00000000) */
  function JoinHigh(high: word, top: word): (w: word)
    ensures w == Hi(high) + HALF * Hi(top)
  {
    high / HALF + (top - top % HALF)
  }

  /** w << 32 */
  function Raise(w: word): (r: word)
    ensures r == HALF * Lo(w)
  {
    ShiftUpHalf(w);
    (w * HALF) % BASE
  }

  /** w & 0xffffffff00000000 */
  function Upper(w: word): (r: word)
    ensures r == HALF * Hi(w)
  {
    w - w % HALF
  }

  lemma ShiftUpHalf(w: word)
    ensures (w * HALF) % BASE == HALF * Lo(w)
  {
    assert w * HALF == Hi(w) * BASE + HALF * Lo(w);
    DivModUnique(w * HALF, BASE, Hi(w), HALF * Lo(w));
  }

  // ---- values ----

  /** Four words as a number. */
  function Val4(w0: int, w1: int, w2: int, w3: int): int {
    w0
    + 0x1_0000_0000_0000_0000 * w1
    + 0x1_0000_0000_0000_0000_0000_0000_0000_0000 * w2
    + 0x1_0000_0000_0000_0000_0000_0000_0000_0000_0000_0000_0000_0000 * w3
  }

  lemma ValOfFour(s: seq<word>)
    requires |s| == 4
    ensures Val(s) == Val4(s[0], s[1], s[2], s[3])
  {
    assert Val(s) == s[0] + BASE * Val(s[1..]);
    assert s[1..][1..] == s[2..] && Val(s[1..]) == s[1] + BASE * Val(s[2..]);
    assert s[2..][1..] == s[3..] && Val(s[2..]) == s[2] + BASE * Val(s[3..]);
    assert s[3..][1..] == [] && Val(s[3..]) == s[3];
  }

  lemma PowFour()
    ensures Pow(4) == TOP
  {
    assert Pow(1) == BASE && Pow(2) == BASE * Pow(1) && Pow(3) == BASE * Pow(2);
  }

  /** Eight 32-bit limbs as a number, least significant first. */
  function Val8(c0: int, c1: int, c2: int, c3: int, c4: int, c5: int, c6: int, c7: int): int {
    Val4(c0 + HALF * c1, c2 + HALF * c3, c4 + HALF * c5, c6 + HALF * c7)
  }

  // ---- the nine terms over the 32-bit limbs c8..c15 of the upper half of the product ----

  function Doubled(c11: int, c12: int, c13: int, c14: int, c15: int): int {
    2 * Val8(0, 0, 0, c11, c12, c13, c14, c15) + 2 * Val8(0, 0, 0, c12, c13, c14, c15, 0)
  }

  function Added(c8: int, c9: int, c10: int, c11: int, c13: int, c14: int, c15: int): int {
    Val8(c8, c9, c10, 0, 0, 0, c14, c15) + Val8(c9, c10, c11, c13, c14, c15, c13, c8)
  }

  function Subtracted(c8: int, c9: int, c10: int, c11: int, c12: int, c13: int, c14: int, c15: int): int {
    Val8(c11, c12, c13, 0, 0, 0, c8, c10)
    + Val8(c12, c13, c14, c15, 0, 0, c9, c11)
    + Val8(c13, c14, c15, c8, c9, c10, 0, c12)
    + Val8(c14, c15, 0, c9, c10, c11, 0, c13)
  }

  /** The nine terms; low is the lower half of the product. */
  function Terms(low: int, c8: int, c9: int, c10: int, c11: int, c12: int, c13: int, c14: int, c15: int): int {
    low + Doubled(c11, c12, c13, c14, c15) + Added(c8, c9, c10, c11, c13, c14, c15)
    - Subtracted(c8, c9, c10, c11, c12, c13, c14, c15)
  }

  /** How many times the prime is in the difference between the product and the terms. */
  function Quotient(c8: int, c9: int, c10: int, c11: int, c12: int, c13: int, c14: int, c15: int): int {
    c8
    + 4294967297 * c9
    + 18446744078004518912 * c10
    + 79228162532711081667253501951 * c11
    + 340282367000166625977638945021017194495 * c12
    + 1461501637671185285124623296161210883009696235519 * c13
    + 6277101736848182401166692341332123086285927382448418586623 * c14
    + 26959946673427741530053695850515137729844644212646842236464328081408 * c15
  }

  lemma TermsCongruent(low: int, c8: int, c9: int, c10: int, c11: int, c12: int, c13: int, c14: int, c15: int)
    ensures low + TOP * Val8(c8, c9, c10, c11, c12, c13, c14, c15)
         == Terms(low, c8, c9, c10, c11, c12, c13, c14, c15)
            + P256 * Quotient(c8, c9, c10, c11, c12, c13, c14, c15)
  {
  }

  ghost predicate Limb(c: int) {
    0 <= c < HALF
  }

  lemma Val8Bound(c0: int, c1: int, c2: int, c3: int, c4: int, c5: int, c6: int, c7: int)
    requires Limb(c0) && Limb(c1) && Limb(c2) && Limb(c3) && Limb(c4) && Limb(c5) && Limb(c6) && Limb(c7)
    ensures 0 <= Val8(c0, c1, c2, c3, c4, c5, c6, c7) < TOP
  {
  }

  /** The accumulated carry stays between -4 and 6. */
  lemma TermsBound(low: int, c8: int, c9: int, c10: int, c11: int, c12: int, c13: int, c14: int, c15: int)
    requires 0 <= low < TOP
    requires Limb(c8) && Limb(c9) && Limb(c10) && Limb(c11) && Limb(c12) && Limb(c13) && Limb(c14) && Limb(c15)
    ensures -4 * TOP < Terms(low, c8, c9, c10, c11, c12, c13, c14, c15) < 7 * TOP
  {
    Val8Bound(0, 0, 0, c11, c12, c13, c14, c15);
    Val8Bound(0, 0, 0, c12, c13, c14, c15, 0);
    Val8Bound(c8, c9, c10, 0, 0, 0, c14, c15);
    Val8Bound(c9, c10, c11, c13, c14, c15, c13, c8);
    Val8Bound(c11, c12, c13, 0, 0, 0, c8, c10);
    Val8Bound(c12, c13, c14, c15, 0, 0, c9, c11);
    Val8Bound(c13, c14, c15, c8, c9, c10, 0, c12);
    Val8Bound(c14, c15, 0, c9, c10, c11, 0, c13);
  }

  function TermSum(p: seq<word>): int
    requires |p| == 8
  {
    Terms(Val4(p[0], p[1], p[2], p[3]), Lo(p[4]), Hi(p[4]), Lo(p[5]), Hi(p[5]), Lo(p[6]), Hi(p[6]), Lo(p[7]), Hi(p[7]))
  }

  /** The terms and the product differ by a multiple of the prime. */
  lemma TermSumCongruent(p: seq<word>) returns (q: int)
    requires |p| == 8
    ensures Val(p) == TermSum(p) + P256 * q
    ensures -4 * TOP < TermSum(p) < 7 * TOP
  {
    ValOfEight(p);
    LowFour(p);
    var low := Val4(p[0], p[1], p[2], p[3]);
    q := Quotient(Lo(p[4]), Hi(p[4]), Lo(p[5]), Hi(p[5]), Lo(p[6]), Hi(p[6]), Lo(p[7]), Hi(p[7]));
    TermsBound(low, Lo(p[4]), Hi(p[4]), Lo(p[5]), Hi(p[5]), Lo(p[6]), Hi(p[6]), Lo(p[7]), Hi(p[7]));
    TermsCongruent(low, Lo(p[4]), Hi(p[4]), Lo(p[5]), Hi(p[5]), Lo(p[6]), Hi(p[6]), Lo(p[7]), Hi(p[7]));
  }

  lemma LowFour(p: seq<word>)
    requires |p| >= 4
    ensures 0 <= Val4(p[0], p[1], p[2], p[3]) < TOP
  {
  }

  lemma ValOfEight(p: seq<word>)
    requires |p| == 8
    ensures Val(p) == Val4(p[0], p[1], p[2], p[3])
                      + TOP * Val8(Lo(p[4]), Hi(p[4]), Lo(p[5]), Hi(p[5]), Lo(p[6]), Hi(p[6]), Lo(p[7]), Hi(p[7]))
  {
    assert p == p[..4] + p[4..];
    ValAppend(p[..4], p[4..]);
    ValOfFour(p[..4]);
    ValOfFour(p[4..]);
    UpFour(Val(p[4..]));
    assert p[4] == Lo(p[4]) + HALF * Hi(p[4]) && p[5] == Lo(p[5]) + HALF * Hi(p[5]);
    assert p[6] == Lo(p[6]) + HALF * Hi(p[6]) && p[7] == Lo(p[7]) + HALF * Hi(p[7]);
  }

  lemma UpFour(x: int)
    ensures Up(x, 4) == TOP * x
  {
    assert Up(x, 1) == BASE * x && Up(x, 2) == BASE * Up(x, 1) && Up(x, 3) == BASE * Up(x, 2);
  }

  // ---- the terms of the method ----

  /** One term: the four words of tmp. */
  method Load(tmp: array<word>, w0: word, w1: word, w2: word, w3: word)
    requires tmp.Length == 4
    modifies tmp
    ensures Val(tmp[..]) == Val4(w0, w1, w2, w3)
    ensures tmp[..] == [w0, w1, w2, w3]
  {
    tmp[0], tmp[1], tmp[2], tmp[3] := w0, w1, w2, w3;
    ValOfFour(tmp[..]);
  }

  /** carry += result += tmp */
  method AddTerm(result: array<word>, tmp: array<word>, carry: int) returns (c: int)
    requires result.Length >= 4 && tmp.Length == 4 && result != tmp
    modifies result
    ensures Val(result[..4]) + c * TOP == old(Val(result[..4])) + carry * TOP + Val(tmp[..])
    ensures result[4..] == old(result[4..])
  {
    PowFour();
    assert tmp[..4] == tmp[..];
    var over := Add(result, result, tmp, 4);
    c := carry + over;
  }

  /** carry -= result -= tmp */
  method SubTerm(result: array<word>, tmp: array<word>, carry: int) returns (c: int)
    requires result.Length >= 4 && tmp.Length == 4 && result != tmp
    modifies result
    ensures Val(result[..4]) + c * TOP == old(Val(result[..4])) + carry * TOP - Val(tmp[..])
    ensures result[4..] == old(result[4..])
  {
    PowFour();
    assert tmp[..4] == tmp[..];
    var under := Sub(result, result, tmp, 4);
    c := carry - under;
  }

  /** The doubled terms: carry += tmp += tmp; carry += result += tmp. */
  method AddTwice(result: array<word>, tmp: array<word>, carry: int) returns (c: int)
    requires result.Length >= 4 && tmp.Length == 4 && result != tmp
    modifies result, tmp
    ensures Val(result[..4]) + c * TOP == old(Val(result[..4])) + carry * TOP + 2 * old(Val(tmp[..]))
    ensures result[4..] == old(result[4..])
    ensures old(tmp[0]) == 0 ==> tmp[0] == 0
  {
    PowFour();
    assert tmp[..4] == tmp[..];
    ghost var t := tmp[..];
    var over := Add(tmp, tmp, tmp, 4);
    assert tmp[..4] == tmp[..];
    LowWordDoubled(t, tmp[..], over);
    c := AddTerm(result, tmp, carry + over);
  }

  lemma LowWordDoubled(t: seq<word>, d: seq<word>, over: int)
    requires |t| == 4 && |d| == 4 && Val(d) + over * TOP == 2 * Val(t)
    ensures t[0] == 0 ==> d[0] == 0
  {
    ValOfFour(t);
    ValOfFour(d);
  }

  /** t, s1 and s2. */
  method DoubledTerms(result: array<word>, tmp: array<word>, p4: word, p5: word, p6: word, p7: word)
    returns (carry: int)
    requires result.Length >= 4 && tmp.Length == 4 && result != tmp
    modifies result, tmp
    ensures Val(result[..4]) + carry * TOP == old(Val(result[..4]))
                                              + Doubled(Hi(p5), Lo(p6), Hi(p6), Lo(p7), Hi(p7))
    ensures result[4..] == old(result[4..])
  {
    Load(tmp, 0, Upper(p5), p6, p7);
    carry := AddTwice(result, tmp, 0);
    tmp[1], tmp[2], tmp[3] := Raise(p6), Join(p6, p7), p7 / HALF; // tmp[0] is still 0
    ValOfFour(tmp[..]);
    carry := AddTwice(result, tmp, carry);
  }

  /** s3 and s4. */
  method AddedTerms(result: array<word>, tmp: array<word>, carry: int, p4: word, p5: word, p6: word, p7: word)
    returns (c: int)
    requires result.Length >= 4 && tmp.Length == 4 && result != tmp
    modifies result, tmp
    ensures Val(result[..4]) + c * TOP == old(Val(result[..4])) + carry * TOP
                                          + Added(Lo(p4), Hi(p4), Lo(p5), Hi(p5), Hi(p6), Lo(p7), Hi(p7))
    ensures result[4..] == old(result[4..])
  {
    Load(tmp, p4, p5 % HALF, 0, p7);
    c := AddTerm(result, tmp, carry);
    Load(tmp, Join(p4, p5), JoinHigh(p5, p6), p7, Join(p6, p4));
    c := AddTerm(result, tmp, c);
  }

  /** d1 to d4. */
  method SubtractedTerms(result: array<word>, tmp: array<word>, carry: int, p4: word, p5: word, p6: word, p7: word)
    returns (c: int)
    requires result.Length >= 4 && tmp.Length == 4 && result != tmp
    modifies result, tmp
    ensures Val(result[..4]) + c * TOP == old(Val(result[..4])) + carry * TOP
                                          - Subtracted(Lo(p4), Hi(p4), Lo(p5), Hi(p5), Lo(p6), Hi(p6), Lo(p7), Hi(p7))
    ensures result[4..] == old(result[4..])
  {
    Load(tmp, Join(p5, p6), p6 / HALF, 0, JoinLow(p4, p5));
    c := SubTerm(result, tmp, carry);
    Load(tmp, p6, p7, 0, JoinHigh(p4, p5));
    c := SubTerm(result, tmp, c);
    Load(tmp, Join(p6, p7), Join(p7, p4), Join(p4, p5), Raise(p6));
    c := SubTerm(result, tmp, c);
    Load(tmp, p7, Upper(p4), p5, Upper(p6));
    c := SubTerm(result, tmp, c);
  }

  /** The nine terms: result plus carry * 2^256 becomes TermSum(product). */
  method AccumulateTerms(result: array<word>, product: array<word>) returns (carry: int)
    requires result.Length >= 4 && product.Length == 8 && result != product
    modifies result
    ensures Val(result[..4]) + carry * TOP == TermSum(product[..])
    ensures result[4..] == old(result[4..])
  {
    var tmp := new word[4];
    ghost var p := product[..];
    Set(result, product, 4);
    assert product[..4] == p[..4];
    ValOfFour(p[..4]);
    ghost var r0 := Val(result[..4]);
    var p4, p5, p6, p7 := product[4], product[5], product[6], product[7];
    carry := DoubledTerms(result, tmp, p4, p5, p6, p7);
    ghost var r1 := Val(result[..4]) + carry * TOP;
    carry := AddedTerms(result, tmp, carry, p4, p5, p6, p7);
    ghost var r2 := Val(result[..4]) + carry * TOP;
    carry := SubtractedTerms(result, tmp, carry, p4, p5, p6, p7);
    TermSumIs(p, r0, r1, r2, Val(result[..4]) + carry * TOP);
  }

  lemma TermSumIs(p: seq<word>, r0: int, r1: int, r2: int, r3: int)
    requires |p| == 8 && r0 == Val4(p[0], p[1], p[2], p[3])
    requires r1 == r0 + Doubled(Hi(p[5]), Lo(p[6]), Hi(p[6]), Lo(p[7]), Hi(p[7]))
    requires r2 == r1 + Added(Lo(p[4]), Hi(p[4]), Lo(p[5]), Hi(p[5]), Hi(p[6]), Lo(p[7]), Hi(p[7]))
    requires r3 == r2 - Subtracted(Lo(p[4]), Hi(p[4]), Lo(p[5]), Hi(p[5]), Lo(p[6]), Hi(p[6]), Lo(p[7]), Hi(p[7]))
    ensures r3 == TermSum(p)
  {
  }

  // ---- the correction loops ----

  /** do carry += result += p while carry < 0. */
  method RaiseToRange(result: array<word>, carry: int, prime: array<word>) returns (ghost k: int)
    requires result.Length >= 4 && prime.Length == 4 && result != prime && Val(prime[..]) == P256
    requires carry < 0
    modifies result
    ensures Val(result[..4]) == old(Val(result[..4])) + carry * TOP + k * P256
    ensures Val(result[..4]) < P256
    ensures result[4..] == old(result[4..])
  {
    PowFour();
    assert prime[..4] == prime[..];
    var c := carry;
    ghost var v := Val(result[..4]) + carry * TOP;
    k := 0;
    ValBound(result[..4]);
    while true
      invariant c < 0
      invariant Val(result[..4]) + c * TOP == v < 0
      invariant v == old(Val(result[..4])) + carry * TOP + k * P256
      invariant result[4..] == old(result[4..])
      decreases -v
    {
      var over := Add(result, result, prime, 4);
      c := c + over;
      v, k := v + P256, k + 1;
      ValBound(result[..4]);
      if c >= 0 {
        return;
      }
    }
  }

  /** while carry or p <= result: carry -= result -= p. */
  method LowerToRange(result: array<word>, carry: int, prime: array<word>) returns (ghost k: int)
    requires result.Length >= 4 && prime.Length == 4 && result != prime && Val(prime[..]) == P256
    requires carry >= 0
    modifies result
    ensures Val(result[..4]) == old(Val(result[..4])) + carry * TOP + k * P256
    ensures Val(result[..4]) < P256
    ensures result[4..] == old(result[4..])
  {
    PowFour();
    assert prime[..4] == prime[..];
    var c := carry;
    ghost var v := Val(result[..4]) + carry * TOP;
    k := 0;
    var cmp := CmpUnsafe(prime, result, 4);
    while c != 0 || cmp != 1
      invariant c >= 0
      invariant Val(result[..4]) + c * TOP == v
      invariant v == old(Val(result[..4])) + carry * TOP + k * P256
      invariant result[4..] == old(result[4..])
      invariant cmp == 1 <==> Val(result[..4]) < P256
      decreases v
    {
      var under := Sub(result, result, prime, 4);
      c := c - under;
      v, k := v - P256, k - 1;
      ValBound(result[..4]);
      cmp := CmpUnsafe(prime, result, 4);
    }
  }

  /** result := product mod the P-256 prime. */
  method MmodFast(result: array<word>, product: array<word>, prime: array<word>)
    requires result.Length >= 4 && product.Length == 8 && prime.Length == 4
    requires result != product && result != prime && Val(prime[..]) == P256
    modifies result
    ensures Val(result[..4]) == Val(product[..]) % P256
    ensures result[4..] == old(result[4..])
  {
    ghost var q := TermSumCongruent(product[..]);
    var carry := AccumulateTerms(result, product);
    ghost var k;
    if carry < 0 {
      k := RaiseToRange(result, carry, prime);
    } else {
      k := LowerToRange(result, carry, prime);
    }
    Residue(Val(product[..]), TermSum(product[..]), q, k, Val(result[..4]));
  }

  lemma Residue(x: nat, t: int, q: int, k: int, r: int)
    requires x == t + P256 * q && r == t + k * P256 && 0 <= r < P256
    ensures r == x % P256
  {
    DivModUnique(x, P256, q - k, r);
  }

  /** The curve prime needs its top word. */
  lemma PrimeTopWord(prime: seq<word>)
    requires |prime| == 4 && Val(prime) == P256
    ensures prime[3] != 0
  {
    ValOfFour(prime);
  }
}
