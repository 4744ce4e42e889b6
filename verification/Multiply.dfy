/** Column-by-column (Comba) multiplication and its multiply-accumulate step. */
module Multiply {
  import opened Arithmetic
  import opened Words

  const BASE2: int := BASE * BASE

  const BASE3: int := BASE * BASE * BASE

  const HALF: int := 0x1_0000_0000

  /** The three-word accumulator r2:r1:r0. */
  function Acc(r0: word, r1: word, r2: word): nat {
    r0 + BASE * r1 + BASE2 * r2
  }

  lemma WordProduct(a: int, b: int, m: int)
    requires 0 <= a < m && 0 <= b < m
    ensures 0 <= a * b <= (m - 1) * (m - 1)
  {
    ProductMonotone(a, m - 1, b);
    ProductMonotone(b, m - 1, m - 1);
  }

  /** An accumulator determines its three words. */
  lemma AccInjective(r0: word, r1: word, r2: word, s0: word, s1: word, s2: word)
    requires Acc(r0, r1, r2) == Acc(s0, s1, s2)
    ensures r0 == s0 && r1 == s1 && r2 == s2
  {
  }

  // ---- muladd ----

  /** The two-word addition p1:p0 into r2:r1:r0, with the carries the C comparisons recover. */
  lemma AddTwoWords(r0: word, r1: word, r2: word, p0: word, p1: word)
    requires p1 <= BASE - 2
    ensures var s0 := (r0 + p0) % BASE;
            var q1 := p1 + (if s0 < p0 then 1 else 0);
            var s1 := (r1 + q1) % BASE;
            var up := if s1 < p1 || (s1 == p1 && s0 < p0) then 1 else 0;
            s0 + BASE * s1 + BASE2 * (r2 + up) == Acc(r0, r1, r2) + p0 + BASE * p1
  {
    var c0 := if r0 + p0 >= BASE then 1 else 0;
    DivModUnique(r0 + p0, BASE, c0, r0 + p0 - c0 * BASE);
    var q1 := p1 + c0;
    var c1 := if r1 + q1 >= BASE then 1 else 0;
    DivModUnique(r1 + q1, BASE, c1, r1 + q1 - c1 * BASE);
  }

  lemma HalvesProduct(a: word, b: word)
    ensures var a0, a1, b0, b1 := a % HALF, a / HALF, b % HALF, b / HALF;
            a * b == a0 * b0 + HALF * (a0 * b1) + HALF * (a1 * b0) + BASE * (a1 * b1)
  {
    ExpandProduct(a % HALF, a / HALF, b % HALF, b / HALF);
  }

  lemma ExpandProduct(a0: int, a1: int, b0: int, b1: int)
    ensures (a0 + HALF * a1) * (b0 + HALF * b1)
         == a0 * b0 + HALF * (a0 * b1) + HALF * (a1 * b0) + BASE * (a1 * b1)
  {
  }

  /** The low word: its two halves come from different partial products and share no bits. */
  function LowWord(i0: word, i2: word): word {
    JoinFits(i0, i2);
    i0 % HALF + (i2 * HALF) % BASE
  }

  lemma JoinFits(i0: word, i2: word)
    ensures i0 % HALF + (i2 * HALF) % BASE < BASE
    ensures (i2 * HALF) % BASE + BASE * (i2 / HALF) == i2 * HALF
  {
    var h, l := i2 / HALF, i2 % HALF;
    assert i2 * HALF == h * BASE + l * HALF;
    DivModUnique(i2 * HALF, BASE, h, l * HALF);
  }

  /** The partial products recombine, the overflow of the middle sum included. */
  lemma Recombine(i0: int, i1: int, i2: int, i3: int)
    requires 0 <= i0 <= (HALF - 1) * (HALF - 1) && 0 <= i1 <= (HALF - 1) * (HALF - 1)
    requires 0 <= i2 <= (HALF - 1) * (HALF - 1) && 0 <= i3 <= (HALF - 1) * (HALF - 1)
    ensures var mid: word := (i2 + i0 / HALF + i1) % BASE;
            var top := i3 + (if mid < i1 then HALF else 0);
            top < BASE
            && LowWord(i0, mid) + BASE * (top + mid / HALF) == i0 + HALF * i1 + HALF * i2 + BASE * i3
  {
    var m := i2 + i0 / HALF + i1;
    var c := if m >= BASE then 1 else 0;
    DivModUnique(m, BASE, c, m - c * BASE);
    JoinFits(i0, m - c * BASE);
  }

  /** r2:r1:r0 += a * b by four 32-bit partial products. */
  method MuladdSplit(a: word, b: word, r0: word, r1: word, r2: word) returns (s0: word, s1: word, s2: word)
    ensures Acc(s0, s1, s2) == (Acc(r0, r1, r2) + a * b) % BASE3
  {
    var p0, p1 := SplitProduct(a, b);
    WordProduct(a, b, BASE);
    AddTwoWords(r0, r1, r2, p0, p1);
    s0 := (r0 + p0) % BASE;
    s1 := (r1 + (p1 + (if s0 < p0 then 1 else 0))) % BASE;
    var up := if s1 < p1 || (s1 == p1 && s0 < p0) then 1 else 0;
    s2 := (r2 + up) % BASE;
    WrapTop(Acc(r0, r1, r2) + a * b, s0, s1, r2 + up);
  }

  /** The part of muladd before the accumulation. */
  method SplitProduct(a: word, b: word) returns (p0: word, p1: word)
    ensures p0 + BASE * p1 == a * b
  {
    var a0, a1 := a % HALF, a / HALF;
    var b0, b1 := b % HALF, b / HALF;
    WordProduct(a0, b0, HALF);
    WordProduct(a0, b1, HALF);
    WordProduct(a1, b0, HALF);
    WordProduct(a1, b1, HALF);
    HalvesProduct(a, b);
    var i0: word := a0 * b0;
    var i1: word := a0 * b1;
    var i2: word := a1 * b0;
    var i3: word := a1 * b1;
    Recombine(i0, i1, i2, i3);
    WordProduct(a, b, BASE);
    i2 := i2 + i0 / HALF;
    i2 := (i2 + i1) % BASE;
    if i2 < i1 { // overflow
      i3 := i3 + HALF;
    }
    p0 := LowWord(i0, i2);
    p1 := i3 + i2 / HALF;
  }

  /** Dropping the carry out of the top word is reduction modulo BASE3. */
  lemma WrapTop(x: nat, s0: word, s1: word, t: nat)
    requires x == s0 + BASE * s1 + BASE2 * t && t <= BASE
    ensures s0 + BASE * s1 + BASE2 * (t % BASE) == x % BASE3
  {
    if t < BASE {
      DivModUnique(t, BASE, 0, t);
      DivModUnique(x, BASE3, 0, x);
    } else {
      DivModUnique(t, BASE, 1, 0);
      DivModUnique(x, BASE3, 1, x - BASE3);
    }
  }

  /** r2:r1:r0 += a * b with a double word. */
  method MuladdWide(a: word, b: word, r0: word, r1: word, r2: word) returns (s0: word, s1: word, s2: word)
    ensures Acc(s0, s1, s2) == (Acc(r0, r1, r2) + a * b) % BASE3
  {
    WordProduct(a, b, BASE);
    var p := a * b;
    var r01 := (BASE * r1 + r0 + p) % BASE2;
    var c := if BASE * r1 + r0 + p >= BASE2 then 1 else 0;
    DivModUnique(BASE * r1 + r0 + p, BASE2, c, BASE * r1 + r0 + p - c * BASE2);
    var up := if r01 < p then 1 else 0;
    s2 := (r2 + up) % BASE;
    s1 := r01 / BASE;
    s0 := r01 % BASE;
    WrapTop(Acc(r0, r1, r2) + p, s0, s1, r2 + up);
  }

  /** Both ways side by side: the very same three words. */
  method MuladdBoth(a: word, b: word, r0: word, r1: word, r2: word)
    returns (split: (word, word, word), wide: (word, word, word))
    ensures split == wide && Acc(split.0, split.1, split.2) == (Acc(r0, r1, r2) + a * b) % BASE3
  {
    var s0, s1, s2 := MuladdSplit(a, b, r0, r1, r2);
    var t0, t1, t2 := MuladdWide(a, b, r0, r1, r2);
    AccInjective(s0, s1, s2, t0, t1, t2);
    split, wide := (s0, s1, s2), (t0, t1, t2);
  }

  // ---- column sums ----

  /** Word k of r, zero outside r. */
  function At(r: seq<word>, k: int): word {
    if 0 <= k < |r| then r[k] else 0
  }

  /** The part of column k contributed by the first i words of l. */
  function Col(l: seq<word>, r: seq<word>, k: int, i: nat): nat
    requires i <= |l|
  {
    if i == 0 then 0 else Col(l, r, k, i - 1) + l[i - 1] * At(r, k - (i - 1))
  }

  /** The first m columns of l * r. */
  function Columns(l: seq<word>, r: seq<word>, m: nat): int {
    if m == 0 then 0 else Columns(l, r, m - 1) + Up(Col(l, r, m - 1, |l|), m - 1)
  }

  lemma {:induction false} ColBound(l: seq<word>, r: seq<word>, k: int, i: nat)
    requires i <= |l|
    ensures Col(l, r, k, i) <= i * ((BASE - 1) * (BASE - 1))
  {
    if i > 0 {
      ColBound(l, r, k, i - 1);
      WordProduct(l[i - 1], At(r, k - (i - 1)), BASE);
    }
  }

  /** Words of l beyond column k contribute nothing. */
  lemma {:induction false} ColTail(l: seq<word>, r: seq<word>, k: nat, i: nat)
    requires k < i <= |l|
    ensures Col(l, r, k, i) == Col(l, r, k, k + 1)
  {
    if k + 1 < i {
      ColTail(l, r, k, i - 1);
    }
  }

  /** Words of l that would need words beyond r contribute nothing. */
  lemma {:induction false} ColSkip(l: seq<word>, r: seq<word>, k: int, i: nat)
    requires i <= |l| && k - i + 1 >= |r|
    ensures Col(l, r, k, i) == 0
  {
    if i > 0 {
      ColSkip(l, r, k, i - 1);
    }
  }

  lemma {:induction false} ColNegative(l: seq<word>, r: seq<word>, k: int, i: nat)
    requires i <= |l| && k < 0
    ensures Col(l, r, k, i) == 0
  {
    if i > 0 {
      ColNegative(l, r, k, i - 1);
    }
  }

  lemma {:induction false} ColHead(l: seq<word>, r: seq<word>, k: int, i: nat)
    requires 1 <= i <= |l|
    ensures Col(l, r, k, i) == l[0] * At(r, k) + Col(l[1..], r, k - 1, i - 1)
  {
    if i > 1 {
      ColHead(l, r, k, i - 1);
    } else {
      assert Col(l, r, k, 0) == 0;
    }
  }

  /** The first m words of a * r, kept word by word. */
  function Row(a: word, r: seq<word>, m: nat): int {
    if m == 0 then 0 else Row(a, r, m - 1) + Up(a * At(r, m - 1), m - 1)
  }

  lemma {:induction false} UpScale(a: int, x: int, n: nat)
    ensures Up(a * x, n) == a * Up(x, n)
  {
    if n > 0 {
      UpScale(a, x, n - 1);
      Associate(BASE, a, Up(x, n - 1));
    }
  }

  lemma {:induction false} RowPrefix(a: word, r: seq<word>, m: nat)
    requires m <= |r|
    ensures Row(a, r, m) == a * Val(r[..m])
  {
    if m > 0 {
      RowPrefix(a, r, m - 1);
      assert r[..m] == r[..m - 1] + [r[m - 1]];
      ValSnoc(r[..m - 1], r[m - 1]);
      UpScale(a, r[m - 1], m - 1);
      Distribute(Val(r[..m - 1]), Up(r[m - 1], m - 1), a);
    }
  }

  lemma {:induction false} RowWhole(a: word, r: seq<word>, m: nat)
    requires m >= |r|
    ensures Row(a, r, m) == a * Val(r)
  {
    if m == |r| {
      assert r[..m] == r;
      RowPrefix(a, r, m);
    } else {
      RowWhole(a, r, m - 1);
      assert At(r, m - 1) == 0;
      PowIsUp(m - 1);
    }
  }

  lemma {:induction false} ColumnsHead(l: seq<word>, r: seq<word>, m: nat)
    requires |l| > 0
    ensures Columns(l, r, m) == Row(l[0], r, m) + (if m == 0 then 0 else BASE * Columns(l[1..], r, m - 1))
  {
    if m > 0 {
      ColumnsHead(l, r, m - 1);
      var rest := Col(l[1..], r, m - 2, |l| - 1);
      ColHead(l, r, m - 1, |l|);
      UpAdd(l[0] * At(r, m - 1), rest, m - 1);
      if m == 1 {
        ColNegative(l[1..], r, -1, |l| - 1);
      }
    }
  }

  /** All columns together are the product. */
  lemma {:induction false} ColumnsProduct(l: seq<word>, r: seq<word>, m: nat)
    requires m + 1 >= |l| + |r| && m >= |r|
    ensures Columns(l, r, m) == Val(l) * Val(r)
    decreases |l|, m
  {
    if |l| == 0 {
      ColumnsEmpty(l, r, m);
    } else {
      ColumnsHead(l, r, m);
      RowWhole(l[0], r, m);
      if m > 0 {
        if |l| == 1 {
          ColumnsEmpty(l[1..], r, m - 1);
        } else {
          ColumnsProduct(l[1..], r, m - 1);
        }
        Distribute(l[0], BASE * Val(l[1..]), Val(r));
        Associate(BASE, Val(l[1..]), Val(r));
      }
    }
  }

  lemma {:induction false} ColumnsEmpty(l: seq<word>, r: seq<word>, m: nat)
    requires |l| == 0
    ensures Columns(l, r, m) == 0
  {
    if m > 0 {
      ColumnsEmpty(l, r, m - 1);
      PowIsUp(m - 1);
    }
  }

  // ---- uECC_vli_mult ----

  /** The accumulator never overflows, and the carry into the next column stays small. */
  lemma ColumnFits(l: seq<word>, r: seq<word>, k: int, i: nat, acc: nat)
    requires i <= |l| < 128 && acc <= |l| * BASE
    ensures acc + Col(l, r, k, i) < BASE3
    ensures (acc + Col(l, r, k, i)) / BASE <= |l| * BASE
  {
    ColBound(l, r, k, i);
    ProductMonotone(i, |l|, (BASE - 1) * (BASE - 1));
  }

  /** One multiply-accumulate inside a column, without the wrap-around. */
  lemma ColumnStep(l: seq<word>, r: seq<word>, k: int, i: nat, acc: nat)
    requires i < |l| < 128 && acc <= |l| * BASE
    ensures (acc + Col(l, r, k, i) + l[i] * At(r, k - i)) % BASE3 == acc + Col(l, r, k, i + 1)
  {
    ColumnFits(l, r, k, i + 1, acc);
    var x := acc + Col(l, r, k, i + 1);
    DivModUnique(x, BASE3, 0, x);
  }

  /** The finished words of the product, and the carry into the next column. */
  ghost predicate ColumnsStored(l: seq<word>, r: seq<word>, done: seq<word>, carry: nat) {
    Val(done) + Up(carry, |done|) == Columns(l, r, |done|)
  }

  /** One more finished column. */
  lemma ColumnDone(l: seq<word>, r: seq<word>, k: nat, done: seq<word>, acc: nat, total: nat, w: word)
    requires |done| == k && ColumnsStored(l, r, done, acc)
    requires total == acc + Col(l, r, k, |l|) && w == total % BASE
    ensures ColumnsStored(l, r, done + [w], total / BASE)
  {
    ValSnoc(done, w);
    UpAdd(acc, Col(l, r, k, |l|), k);
    UpAdd(w, total / BASE * BASE, k);
    UpSucc(total / BASE, k);
  }


  /** The inner loop of both halves of uECC_vli_mult: column k, words lo..hi of left. */
  method Column(left: array<word>, right: array<word>, n: nat, k: nat, lo: nat, hi: nat, r0: word, r1: word)
    returns (s0: word, s1: word, s2: word)
    requires 0 < n < 128 && n <= left.Length && n <= right.Length
    requires lo <= hi <= n && hi <= k + 1 && k < lo + n
    requires lo == 0 || lo == k + 1 - n
    requires hi == n || hi == k + 1
    requires Acc(r0, r1, 0) <= n * BASE
    ensures Acc(s0, s1, s2) == Acc(r0, r1, 0) + Col(left[..n], right[..n], k, n)
    ensures Acc(s1, s2, 0) == Acc(s0, s1, s2) / BASE <= n * BASE
  {
    ghost var l, r, acc := left[..n], right[..n], Acc(r0, r1, 0);
    s0, s1, s2 := r0, r1, 0;
    if lo > 0 {
      ColSkip(l, r, k, lo);
    }
    for i := lo to hi
      invariant Acc(s0, s1, s2) == acc + Col(l, r, k, i)
    {
      ColumnStep(l, r, k, i, acc);
      s0, s1, s2 := MuladdSplit(left[i], right[k - i], s0, s1, s2);
    }
    if hi < n {
      ColTail(l, r, k, n);
    }
    ColumnFits(l, r, k, n, acc);
    DivModUnique(Acc(s0, s1, s2), BASE, Acc(s1, s2, 0), s0);
  }

  /** One round of either outer loop: sum column k, store its low word, shift the accumulator. */
  method StoreColumn(result: array<word>, left: array<word>, right: array<word>, n: nat, k: nat, lo: nat, hi: nat,
                     r0: word, r1: word)
    returns (s0: word, s1: word)
    requires 0 < n < 128 && n <= left.Length && n <= right.Length && 2 * n <= result.Length
    requires result != left && result != right
    requires lo <= hi <= n && hi <= k + 1 && k < lo + n
    requires lo == 0 || lo == k + 1 - n
    requires hi == n || hi == k + 1
    requires Acc(r0, r1, 0) <= n * BASE
    requires ColumnsStored(left[..n], right[..n], result[..k], Acc(r0, r1, 0))
    modifies result
    ensures Acc(s0, s1, 0) <= n * BASE
    ensures ColumnsStored(left[..n], right[..n], result[..k + 1], Acc(s0, s1, 0))
    ensures forall j | k < j < result.Length :: result[j] == old(result[j])
  {
    ghost var done := result[..k];
    var t0, t1, t2 := Column(left, right, n, k, lo, hi, r0, r1);
    ColumnDone(left[..n], right[..n], k, done, Acc(r0, r1, 0), Acc(t0, t1, t2), t0);
    result[k] := t0;
    assert result[..k + 1] == done + [t0];
    s0, s1 := t1, t2;
  }

  /** result := left * right, over twice as many words. */
  method Mult(result: array<word>, left: array<word>, right: array<word>, n: nat)
    requires 0 < n < 128 && n <= left.Length && n <= right.Length && 2 * n <= result.Length
    requires result != left && result != right
    modifies result
    ensures Val(result[..2 * n]) == Val(left[..n]) * Val(right[..n])
    ensures forall j | 2 * n <= j < result.Length :: result[j] == old(result[j])
  {
    var r0: word, r1: word := 0, 0;
    for k := 0 to n
      invariant Acc(r0, r1, 0) <= n * BASE
      invariant ColumnsStored(left[..n], right[..n], result[..k], Acc(r0, r1, 0))
      invariant forall j | 2 * n <= j < result.Length :: result[j] == old(result[j])
    {
      r0, r1 := StoreColumn(result, left, right, n, k, 0, k + 1, r0, r1);
    }
    for k := n to 2 * n - 1
      invariant Acc(r0, r1, 0) <= n * BASE
      invariant ColumnsStored(left[..n], right[..n], result[..k], Acc(r0, r1, 0))
      invariant forall j | 2 * n <= j < result.Length :: result[j] == old(result[j])
    {
      r0, r1 := StoreColumn(result, left, right, n, k, k + 1 - n, n, r0, r1);
    }
    ghost var done := result[..2 * n - 1];
    result[2 * n - 1] := r0;
    assert result[..2 * n] == done + [r0];
    LastWord(left[..n], right[..n], done, r0, r1);
  }

  lemma ProductBound(l: seq<word>, r: seq<word>)
    ensures Val(l) * Val(r) < Pow(|l| + |r|)
  {
    ValBound(l);
    ValBound(r);
    ProductStrictBoth(Val(l), Val(r), Pow(|l|), Pow(|r|));
    PowAdd(|l|, |r|);
  }

  /** What is left after the last column is a single word. */
  lemma LastWord(l: seq<word>, r: seq<word>, done: seq<word>, r0: word, r1: word)
    requires |l| == |r| > 0 && |done| == 2 * |l| - 1
    requires ColumnsStored(l, r, done, Acc(r0, r1, 0))
    ensures Val(done + [r0]) == Val(l) * Val(r)
  {
    var m := |done|;
    ColumnsProduct(l, r, m);
    ProductBound(l, r);
    PowIsUp(m + 1);
    UpSucc(1, m);
    if r1 > 0 {
      UpMonotone(BASE, Acc(r0, r1, 0), m);
    }
    ValSnoc(done, r0);
  }
}
