/** Reduction of a double-length product by shift and subtract. */
module Reduce {
  import opened Arithmetic
  import opened Words
  import opened Bits

  // ---- aligning the modulus ----

  /** The bits of w << b that stay in the word, and those that move to the next one. */
  function Kept(w: word, b: nat): word
    requires 0 < b < 64
  {
    (w * Pow2(b)) % BASE
  }

  function Moved(w: word, b: nat): int
    requires 0 < b < 64
  {
    w / Pow2(64 - b)
  }

  lemma ShiftParts(w: int, p: int, q: int)
    requires 0 <= w < BASE && p > 0 && q > 0 && p * q == BASE
    ensures w * p == (w * p) % BASE + BASE * (w / q)
    ensures (w * p) % BASE + p <= BASE
    ensures 0 <= w / q < p
  {
    var h, l := w / q, w % q;
    assert h * q + l == w;
    Distribute(h * q, l, p);
    ProductMonotone(l + 1, q, p);
    Distribute(l, 1, p);
    ShiftedQuotient(h, p, q);
    ProductMonotone(0, l, p);
    DivModUnique(w * p, BASE, h, l * p);
    if h >= p {
      ProductMonotone(p, h, q);
    }
  }

  lemma ShiftedQuotient(h: int, p: int, q: int)
    ensures (h * q) * p == h * (p * q)
  {
    Associate(h, q, p);
  }

  /** The parts of a shifted word, and the room its low zero bits leave for the carry. */
  lemma ShiftWord(w: word, b: nat)
    requires 0 < b < 64
    ensures 0 <= Moved(w, b) < Pow2(b)
    ensures Kept(w, b) + Pow2(b) <= BASE
    ensures Dbl(w, b) == Kept(w, b) + BASE * Moved(w, b)
  {
    Pow2Add(b, 64 - b);
    DblIsProduct(1, 64);
    Dbl64(1);
    DblIsProduct(w, b);
    ShiftParts(w, Pow2(b), Pow2(64 - b));
  }

  /** The shifted prefix of the modulus, with the bits still to be carried. */
  ghost predicate Aligned(mod: seq<word>, b: nat, done: seq<word>, carry: int) {
    |done| <= |mod| && Dbl(Val(mod[..|done|]), b) == Val(done) + Up(carry, |done|)
  }

  lemma AlignWord(mod: seq<word>, b: nat, done: seq<word>, carry: nat, w: word)
    requires 0 < b < 64 && |done| < |mod| && Aligned(mod, b, done, carry)
    requires w == Kept(mod[|done|], b) + carry
    ensures Aligned(mod, b, done + [w], Moved(mod[|done|], b))
  {
    var n, m := |done|, mod[|done|];
    ShiftWord(m, b);
    assert mod[..n + 1] == mod[..n] + [m];
    ValSnoc(mod[..n], m);
    ValSnoc(done, w);
    DblAdd(Val(mod[..n]), Up(m, n), b);
    DblUp(m, b, n);
    var low, high := Kept(m, b), Moved(m, b);
    UpAdd(low, high * BASE, n);
    UpAdd(low, carry, n);
    UpSucc(high, n);
  }

  /** The shifting loop: the n words above offset n become mod << b. */
  method ShiftIntoTop(multiple: array<word>, mod: array<word>, n: nat, b: nat)
    requires n <= mod.Length && multiple.Length == 2 * n && multiple != mod && 0 < b < 64
    requires Dbl(Val(mod[..n]), b) < Pow(n)
    modifies multiple
    ensures Val(multiple[n..2 * n]) == Dbl(Val(mod[..n]), b)
    ensures forall j | 0 <= j < n :: multiple[j] == old(multiple[j])
  {
    var carry: word := 0;
    PowIsUp(0);
    DblPositive(b);
    for index := 0 to n
      invariant 0 <= carry < Pow2(b)
      invariant forall j | 0 <= j < n :: multiple[j] == old(multiple[j])
      invariant Aligned(mod[..n], b, multiple[n..n + index], carry)
    {
      ghost var done := multiple[n..n + index];
      ShiftWord(mod[index], b);
      // the shifted word has b zero bits at the bottom: `|` with the carry is a sum
      var w: word := Kept(mod[index], b) + carry;
      AlignWord(mod[..n], b, done, carry, w);
      multiple[n + index] := w;
      carry := Moved(mod[index], b);
      assert multiple[n..n + index + 1] == done + [w];
    }
    assert mod[..n][..n] == mod[..n];
    NoCarryOut(Val(mod[..n]), b, Val(multiple[n..2 * n]), carry, n);
  }

  /** mod_multiple := mod << (64 * n + b), the modulus moved against the top of 2 * n words. */
  method AlignModulus(multiple: array<word>, mod: array<word>, n: nat, b: nat)
    requires n <= mod.Length && multiple.Length == 2 * n && multiple != mod && b < 64
    requires Dbl(Val(mod[..n]), b) < Pow(n)
    modifies multiple
    ensures Val(multiple[..]) == Dbl(Val(mod[..n]), 64 * n + b)
  {
    Clear(multiple, n);
    if b > 0 {
      ShiftIntoTop(multiple, mod, n, b);
    } else {
      for index := 0 to n
        invariant forall j | 0 <= j < n :: multiple[j] == 0
        invariant multiple[n..n + index] == mod[..index]
      {
        multiple[n + index] := mod[index];
      }
    }
    ZerosBelow(multiple[..], n);
    DblWords(Dbl(Val(mod[..n]), b), n);
    DblDbl(Val(mod[..n]), b, 64 * n);
  }

  lemma ZerosBelow(s: seq<word>, n: nat)
    requires |s| == 2 * n && forall j | 0 <= j < n :: s[j] == 0
    ensures Val(s) == Up(Val(s[n..2 * n]), n)
  {
    assert s == s[..n] + s[n..2 * n];
    ValZeros(s[..n]);
    ValAppend(s[..n], s[n..2 * n]);
  }

  lemma NoCarryOut(m: nat, b: nat, v: nat, carry: nat, n: nat)
    requires Dbl(m, b) == v + Up(carry, n) && Dbl(m, b) < Pow(n)
    ensures Dbl(m, b) == v
  {
    PowIsUp(n);
    if carry > 0 {
      UpMonotone(1, carry, n);
    }
  }

  // ---- halving the aligned modulus ----

  /** Halving moves the low bit of the upper half to the top of the lower half. */
  lemma HalfMovesDown(h: nat, n: nat)
    requires n > 0
    ensures 2 * (Up(h % 2 * HIGH_BIT, n - 1) + Up(h / 2, n)) == Up(h, n)
  {
    var bit := h % 2;
    UpAdd(bit * HIGH_BIT, bit * HIGH_BIT, n - 1);
    UpSucc(bit, n - 1);
    UpAdd(h / 2, h / 2, n);
    UpAdd(h - bit, bit, n);
  }

  lemma HalveSplit(lo: seq<word>, hi: seq<word>, loHalf: seq<word>, top: word, hiHalf: seq<word>)
    requires |lo| == |hi| == |hiHalf| == |loHalf| + 1
    requires Val(loHalf + [top]) == Val(lo) / 2 && top < HIGH_BIT
    requires Val(hiHalf) == Val(hi) / 2
    ensures Val(loHalf + [top + hi[0] % 2 * HIGH_BIT] + hiHalf) == Val(lo + hi) / 2
  {
    var n, bit := |lo|, hi[0] % 2;
    var w := top + bit * HIGH_BIT;
    ValAppend(lo, hi);
    ValAppend(loHalf + [w], hiHalf);
    ReplaceTop(loHalf, top, bit * HIGH_BIT);
    LowBit(hi);
    HalfMovesDown(Val(hi), n);
  }

  /** One bit down over all 2 * n words, half by half. */
  method HalveMultiple(multiple: array<word>, n: nat)
    requires n > 0 && multiple.Length == 2 * n
    modifies multiple
    ensures Val(multiple[..]) == old(Val(multiple[..])) / 2
  {
    ghost var lo, hi := multiple[..n], multiple[n..];
    assert multiple[..] == lo + hi;
    assert multiple[0..0 + n] == lo && multiple[n..n + n] == hi;
    Rshift1(multiple, 0, n);
    ghost var loHalf, top := multiple[..n - 1], multiple[n - 1];
    assert multiple[0..0 + n] == loHalf + [top];
    // the top bit of multiple[n - 1] is clear, so `|` is a sum
    LowBitToTop(multiple[n]);
    multiple[n - 1] := multiple[n - 1] + (multiple[n] * HIGH_BIT) % BASE;
    HalveUpper(multiple, n, lo, hi, loHalf, top);
  }

  method HalveUpper(multiple: array<word>, n: nat, ghost lo: seq<word>, ghost hi: seq<word>, ghost loHalf: seq<word>,
                    ghost top: word)
    requires n > 0 && multiple.Length == 2 * n && |lo| == |hi| == n && |loHalf| == n - 1 && top < HIGH_BIT
    requires Val(loHalf + [top]) == Val(lo) / 2 && multiple[n..] == hi
    requires top + hi[0] % 2 * HIGH_BIT < BASE
    requires multiple[..n] == loHalf + [top + hi[0] % 2 * HIGH_BIT]
    modifies multiple
    ensures Val(multiple[..]) == Val(lo + hi) / 2
  {
    assert multiple[n..n + n] == hi;
    Rshift1(multiple, n, n);
    HalveSplit(lo, hi, loHalf, top, multiple[n..n + n]);
    assert multiple[..] == loHalf + [top + hi[0] % 2 * HIGH_BIT] + multiple[n..n + n];
  }

  // ---- uECC_vli_mmod ----

  lemma AlignedAboveProduct(m: nat, bits: nat, n: nat)
    requires 0 < bits <= 64 * n && Dbl(1, bits - 1) <= m < Dbl(1, bits)
    ensures Dbl(m, 64 * n - bits) < Pow(n)
    ensures Dbl(m, 2 * 64 * n - bits + 1) >= Pow(2 * n)
  {
    DblMonotone(Dbl(1, bits), m, 64 * n - bits);
    DblDbl(1, bits, 64 * n - bits);
    DblWords(1, n);
    PowIsUp(n);
    DblMonotone(Dbl(1, bits - 1), m, 2 * 64 * n - bits + 1);
    DblDbl(1, bits - 1, 2 * 64 * n - bits + 1);
    DblWords(1, 2 * n);
    PowIsUp(2 * n);
  }

  /** Subtracting a shifted modulus keeps the residue. */
  lemma {:induction false} SubtractKeepsResidue(v: int, m: int, shift: nat)
    requires m > 0
    ensures (v - Dbl(m, shift)) % m == v % m
  {
    DblIsProduct(m, shift);
    var k := Pow2(shift);
    Distribute(v / m, k, m);
    DivModUnique(v - k * m, m, v / m - k, v % m);
  }

  lemma LowHalf(s: seq<word>, n: nat)
    requires n <= |s| && Val(s) < Pow(n)
    ensures Val(s[..n]) == Val(s)
  {
    assert s == s[..n] + s[n..];
    ValAppend(s[..n], s[n..]);
    PowIsUp(n);
    if Val(s[n..]) > 0 {
      UpMonotone(1, Val(s[n..]), n);
    }
  }

  /** One round: the borrow says whether the aligned modulus still fits. */
  lemma RoundSelects(v: int, m: int, shift: nat, borrow: int, w: int, top: int)
    requires m > 0 && 0 <= w < top && 0 <= borrow <= 1
    requires 0 <= v < Dbl(m, shift + 1)
    requires w == v - Dbl(m, shift) + borrow * top
    ensures borrow == 0 ==> 0 <= w < Dbl(m, shift) && w % m == v % m
    ensures borrow == 1 ==> v < Dbl(m, shift)
  {
    SubtractKeepsResidue(v, m, shift);
  }

  /** result := product % mod, clobbering product. The top word of mod must be in use. */
  method Mmod(result: array<word>, product: array<word>, mod: array<word>, n: nat)
    requires n > 0 && n <= result.Length && n <= mod.Length && product.Length == 2 * n
    requires mod[n - 1] != 0
    requires product != mod && result != product
    modifies result, product
    ensures old(Val(mod[..n])) > 0 && Val(result[..n]) == old(Val(product[..])) % old(Val(mod[..n]))
    ensures forall j | n <= j < result.Length :: result[j] == old(result[j])
  {
    var multiple := new word[2 * n];
    var tmp := new word[2 * n];
    ghost var m, p0 := Val(mod[..n]), Val(product[..]);
    var bits := NumBits(mod, n);
    ModulusPositive(mod[..n]);
    ValBound(mod[..n]);
    AlignedAboveProduct(m, bits, n);
    var shift := 2 * 64 * n - bits;
    AlignModulus(multiple, mod, n, shift - 64 * n);
    var index := 1;
    ValBound(product[..]);
    while shift >= 0
      invariant -1 <= shift
      invariant index == 0 || index == 1
      invariant shift >= 0 ==> Val(multiple[..]) == Dbl(m, shift)
      invariant Val(if index == 1 then product[..] else tmp[..]) < Dbl(m, shift + 1)
      invariant Val(if index == 1 then product[..] else tmp[..]) % m == p0 % m
      invariant mod[..n] == old(mod[..n])
      invariant forall j | 0 <= j < result.Length :: result[j] == old(result[j])
    {
      index := NextResidue(product, tmp, multiple, index, n, m, shift);
      HalveMultiple(multiple, n);
      shift := shift - 1;
    }
    TakeResidue(result, if index == 1 then product else tmp, n, m, p0);
  }

  /** The lower half of the residue is all of it. */
  method TakeResidue(result: array<word>, v: array<word>, n: nat, ghost m: int, ghost p: int)
    requires n <= result.Length && v.Length == 2 * n && result != v
    requires 0 < m < Pow(n) && Val(v[..]) < m && Val(v[..]) % m == p % m
    modifies result
    ensures Val(result[..n]) == p % m
    ensures forall j | n <= j < result.Length :: result[j] == old(result[j])
  {
    ResidueReached(Val(v[..]), m, p);
    LowHalf(v[..], n);
    assert v[..][..n] == v[..n];
    Set(result, v, n);
  }

  /** One subtraction of the multiple: index says which of the two buffers holds the smaller residue. */
  method NextResidue(product: array<word>, tmp: array<word>, multiple: array<word>, index: int, n: nat, ghost m: int,
                     ghost shift: nat)
    returns (next: int)
    requires product.Length == tmp.Length == multiple.Length == 2 * n && product != tmp && product != multiple
    requires tmp != multiple
    requires m > 0 && (index == 0 || index == 1)
    requires Val(multiple[..]) == Dbl(m, shift) && Val(if index == 1 then product[..] else tmp[..]) < Dbl(m, shift + 1)
    modifies product, tmp
    ensures next == 0 || next == 1
    ensures Val(if next == 1 then product[..] else tmp[..]) < Dbl(m, shift)
    ensures Val(if next == 1 then product[..] else tmp[..]) % m
            == old(Val(if index == 1 then product[..] else tmp[..])) % m
  {
    var borrow := SubtractMultiple(if index == 1 then tmp else product, if index == 1 then product else tmp, multiple,
                                   n, m, shift);
    next := if (index == 1) == (borrow == 1) then 1 else 0; // !(index ^ borrow)
  }

  /** The inner loop, which is uECC_vli_sub written out over 2 * n words; v or other is the smaller residue. */
  method SubtractMultiple(other: array<word>, v: array<word>, multiple: array<word>, n: nat, ghost m: int,
                          ghost shift: nat)
    returns (borrow: word)
    requires v.Length == other.Length == multiple.Length == 2 * n && other != v && other != multiple && m > 0
    requires Val(multiple[..]) == Dbl(m, shift) && Val(v[..]) < Dbl(m, shift + 1)
    modifies other
    ensures borrow == 0 || borrow == 1
    ensures borrow == 0 ==> Val(other[..]) < Dbl(m, shift) && Val(other[..]) % m == Val(v[..]) % m
    ensures borrow == 1 ==> Val(v[..]) < Dbl(m, shift)
  {
    borrow := Sub(other, v, multiple, 2 * n);
    assert v[..2 * n] == v[..] && other[..2 * n] == other[..] && multiple[..2 * n] == multiple[..];
    ValBound(other[..]);
    RoundSelects(Val(v[..]), m, shift, borrow, Val(other[..]), Pow(2 * n));
  }

  lemma ResidueReached(v: int, m: int, p: int)
    requires m > 0 && 0 <= v < m && v % m == p % m
    ensures v == p % m
  {
    DivModUnique(v, m, 0, v);
  }

  lemma ModulusPositive(s: seq<word>)
    requires |s| > 0 && s[|s| - 1] != 0
    ensures Val(s) > 0
  {
    var n := |s| - 1;
    assert s == s[..n] + [s[n]];
    ValSnoc(s[..n], s[n]);
    UpMonotone(1, s[n], n);
    PowIsUp(n);
  }
}
