/** Multiword naturals of the P-256 code: arrays of 64-bit words, least significant first. */
module Words {
  import opened Arithmetic

  const BASE: int := 0x1_0000_0000_0000_0000

  const HIGH_BIT: int := 0x8000_0000_0000_0000

  type word = x: int | 0 <= x < 0x1_0000_0000_0000_0000

  /** The number a word sequence stands for. */
  function Val(s: seq<word>): nat {
    if |s| == 0 then 0 else s[0] + BASE * Val(s[1..])
  }

  /** x moved up by n words. */
  function Up(x: int, n: nat): int {
    if n == 0 then x else BASE * Up(x, n - 1)
  }

  /** BASE to the power n. */
  function Pow(n: nat): (p: nat)
    ensures p > 0
  {
    if n == 0 then 1 else BASE * Pow(n - 1)
  }

  // ---- Up is multiplication by a power of BASE, kept linear for the proofs ----

  lemma {:induction false} UpAdd(x: int, y: int, n: nat)
    ensures Up(x + y, n) == Up(x, n) + Up(y, n)
    ensures Up(x - y, n) == Up(x, n) - Up(y, n)
  {
    if n > 0 {
      UpAdd(x, y, n - 1);
    }
  }

  lemma {:induction false} UpSucc(x: int, n: nat)
    ensures Up(x * BASE, n) == Up(x, n + 1)
  {
    if n > 0 {
      UpSucc(x, n - 1);
    }
  }

  lemma {:induction false} UpUp(x: int, m: nat, n: nat)
    ensures Up(Up(x, m), n) == Up(x, m + n)
  {
    if n > 0 {
      UpUp(x, m, n - 1);
    }
  }

  lemma {:induction false} UpMonotone(x: int, y: int, n: nat)
    requires x <= y
    ensures Up(x, n) <= Up(y, n)
  {
    if n > 0 {
      UpMonotone(x, y, n - 1);
    }
  }

  lemma {:induction false} UpIsProduct(x: int, n: nat)
    ensures Up(x, n) == x * Pow(n)
  {
    if n > 0 {
      UpIsProduct(x, n - 1);
      Associate(BASE, x, Pow(n - 1));
    }
  }

  lemma {:induction false} PowIsUp(n: nat)
    ensures Pow(n) == Up(1, n) && Up(0, n) == 0
  {
    if n > 0 {
      PowIsUp(n - 1);
    }
  }

  lemma {:induction false} PowAdd(m: nat, n: nat)
    ensures Pow(m + n) == Pow(m) * Pow(n)
  {
    if m > 0 {
      PowAdd(m - 1, n);
      Associate(BASE, Pow(m - 1), Pow(n));
    }
  }

  // ---- Val ----

  lemma {:induction false} ValAppend(s: seq<word>, t: seq<word>)
    ensures Val(s + t) == Val(s) + Up(Val(t), |s|)
  {
    if |s| == 0 {
      assert s + t == t;
    } else {
      assert (s + t)[1..] == s[1..] + t;
      ValAppend(s[1..], t);
    }
  }

  lemma ValSnoc(s: seq<word>, x: word)
    ensures Val(s + [x]) == Val(s) + Up(x, |s|)
  {
    assert [x][1..] == [];
    ValAppend(s, [x]);
  }

  lemma {:induction false} ValBound(s: seq<word>)
    ensures Val(s) < Pow(|s|)
  {
    if |s| > 0 {
      ValBound(s[1..]);
    }
  }

  /** n words hold every number below Pow(n) in exactly one way. */
  lemma {:induction false} ValInjective(s: seq<word>, t: seq<word>)
    requires |s| == |t| && Val(s) == Val(t)
    ensures s == t
  {
    if |s| > 0 {
      ValInjective(s[1..], t[1..]);
      assert s == [s[0]] + s[1..] && t == [t[0]] + t[1..];
    }
  }

  lemma {:induction false} ValZeros(s: seq<word>)
    requires forall i | 0 <= i < |s| :: s[i] == 0
    ensures Val(s) == 0
  {
    if |s| > 0 {
      ValZeros(s[1..]);
    }
  }

  lemma ReplaceTop(s: seq<word>, top: word, extra: int)
    requires 0 <= top + extra < BASE
    ensures Val(s + [top + extra]) == Val(s + [top]) + Up(extra, |s|)
  {
    ValSnoc(s, top);
    ValSnoc(s, top + extra);
    UpAdd(top, extra, |s|);
  }

  lemma LowBit(s: seq<word>)
    requires |s| > 0
    ensures Val(s) % 2 == s[0] % 2
  {
  }

  // ---- uECC_vli_clear, uECC_vli_set ----

  method Clear(vli: array<word>, n: nat)
    requires n <= vli.Length
    modifies vli
    ensures Val(vli[..n]) == 0
    ensures vli[n..] == old(vli[n..])
    ensures forall j | 0 <= j < n :: vli[j] == 0
  {
    for i := 0 to n
      invariant forall j | 0 <= j < i :: vli[j] == 0
      invariant vli[n..] == old(vli[n..])
    {
      vli[i] := 0;
    }
    ValZeros(vli[..n]);
  }

  method Set(dest: array<word>, src: array<word>, n: nat)
    requires n <= dest.Length && n <= src.Length
    modifies dest
    ensures dest[..n] == old(src[..n])
    ensures dest[n..] == old(dest[n..])
  {
    for i := 0 to n
      invariant dest[..i] == old(src[..i])
      invariant forall j | i <= j < dest.Length :: dest[j] == old(dest[j])
      invariant forall j | i <= j < src.Length :: src[j] == old(src[j])
    {
      dest[i] := src[i];
    }
  }

  // ---- uECC_vli_cmp_unsafe ----

  /** The sign of left - right, from the top word down. */
  method CmpUnsafe(left: array<word>, right: array<word>, n: nat) returns (r: int)
    requires n <= left.Length && n <= right.Length
    ensures r == if Val(left[..n]) > Val(right[..n]) then 1
                 else if Val(left[..n]) < Val(right[..n]) then -1 else 0
  {
    var i := n;
    while i > 0
      invariant 0 <= i <= n
      invariant Val(left[..n]) - Val(right[..n]) == Val(left[..i]) - Val(right[..i])
    {
      i := i - 1;
      assert left[..i + 1] == left[..i] + [left[i]] && right[..i + 1] == right[..i] + [right[i]];
      TopWordDecides(left[..i], left[i], right[..i], right[i]);
      if left[i] > right[i] {
        return 1;
      } else if left[i] < right[i] {
        return -1;
      }
    }
    return 0;
  }

  lemma TopWordDecides(x: seq<word>, a: word, y: seq<word>, b: word)
    requires |x| == |y|
    ensures a > b ==> Val(x + [a]) > Val(y + [b])
    ensures a < b ==> Val(x + [a]) < Val(y + [b])
    ensures a == b ==> Val(x + [a]) - Val(y + [b]) == Val(x) - Val(y)
  {
    ValSnoc(x, a);
    ValSnoc(y, b);
    if a > b {
      LargerTop(x, a, y, b);
    } else if a < b {
      LargerTop(y, b, x, a);
    }
  }

  lemma LargerTop(x: seq<word>, a: word, y: seq<word>, b: word)
    requires |x| == |y| && a > b
    ensures Val(x + [a]) > Val(y + [b])
  {
    var n := |x|;
    ValSnoc(x, a);
    ValSnoc(y, b);
    ValBound(x);
    ValBound(y);
    PowIsUp(n);
    UpAdd(b, 1, n);
    UpMonotone(b + 1, a, n);
  }

  // ---- uECC_vli_rshift1 ----

  /** The C expression temp << 63 keeps only the low bit, moved to the top. */
  lemma LowBitToTop(temp: word)
    ensures (temp * HIGH_BIT) % BASE == (temp % 2) * HIGH_BIT
  {
    var h, b := temp / 2, temp % 2;
    assert temp * HIGH_BIT == h * BASE + b * HIGH_BIT;
    DivModUnique(temp * HIGH_BIT, BASE, h, b * HIGH_BIT);
  }

  /** Halves the n words that start at offset off; the low bit is lost. */
  method Rshift1(vli: array<word>, off: nat, n: nat)
    requires off + n <= vli.Length
    modifies vli
    ensures Val(vli[off..off + n]) == old(Val(vli[off..off + n])) / 2
    ensures forall j | 0 <= j < vli.Length && !(off <= j < off + n) :: vli[j] == old(vli[j])
    ensures n > 0 ==> vli[off + n - 1] < HIGH_BIT
  {
    var carry: word := 0;
    var i := n;
    ghost var s, bit := vli[off..off + n], 0;
    while i > 0
      invariant 0 <= i <= n
      invariant 0 <= bit <= 1 && carry == bit * HIGH_BIT
      invariant i == n ==> bit == 0
      invariant 2 * Val(vli[off + i..off + n]) + bit == Val(s[i..])
      invariant forall j | 0 <= j < i :: vli[off + j] == s[j]
      invariant forall j | 0 <= j < vli.Length && !(off <= j < off + n) :: vli[j] == old(vli[j])
      invariant i < n ==> vli[off + n - 1] < HIGH_BIT
    {
      i := i - 1;
      ghost var tail := vli[off + i + 1..off + n];
      carry := ShiftWord(vli, off + i, off + n, carry, s[i], tail, bit);
      HalvedWord(s, i, bit, tail, vli[off + i..off + n]);
      bit := s[i] % 2;
    }
    assert s[0..] == s;
  }

  /** One word of the shift: its lowest bit is carried to the top of the word below. */
  method ShiftWord(vli: array<word>, at: nat, end: nat, carry: word, ghost w: word, ghost above: seq<word>,
                   ghost bit: nat)
    returns (next: word)
    requires at < end <= vli.Length && bit <= 1 && carry == bit * HIGH_BIT
    requires vli[at] == w && vli[at + 1..end] == above
    modifies vli
    ensures vli[at..end] == [w / 2 + bit * HIGH_BIT] + above
    ensures vli[at] == w / 2 + carry
    ensures next == w % 2 * HIGH_BIT
    ensures forall j | 0 <= j < vli.Length && j != at :: vli[j] == old(vli[j])
  {
    var temp := vli[at];
    // temp >> 1 has its top bit clear, so `|` with the carry bit is a sum
    vli[at] := temp / 2 + carry;
    LowBitToTop(temp);
    next := (temp * HIGH_BIT) % BASE;
  }

  /** One more word of the shift: bit comes down from the words above. */
  lemma HalvedWord(s: seq<word>, i: nat, bit: nat, tail: seq<word>, t: seq<word>)
    requires i < |s| && bit <= 1 && 2 * Val(tail) + bit == Val(s[i + 1..])
    requires t == [s[i] / 2 + bit * HIGH_BIT] + tail
    ensures 2 * Val(t) + s[i] % 2 == Val(s[i..])
  {
    assert s[i..][1..] == s[i + 1..];
    assert t[1..] == tail;
  }

  // ---- uECC_vli_add, uECC_vli_sub ----

  /** The C carry test: a sum that equals the left word leaves the carry as it was. */
  function CarryAfter(sum: word, left: word, carry: word): word {
    if sum != left then (if sum < left then 1 else 0) else carry
  }

  lemma AddWord(left: word, right: word, carry: word)
    requires carry <= 1
    ensures var sum := (left + right + carry) % BASE;
            left + right + carry == sum + CarryAfter(sum, left, carry) * BASE
  {
    var t := left + right + carry;
    if t < BASE {
      DivModUnique(t, BASE, 0, t);
    } else {
      DivModUnique(t, BASE, 1, t - BASE);
    }
  }

  function BorrowAfter(diff: word, left: word, borrow: word): word {
    if diff != left then (if diff > left then 1 else 0) else borrow
  }

  lemma SubWord(left: word, right: word, borrow: word)
    requires borrow <= 1
    ensures var diff := (left - right - borrow) % BASE;
            diff + right + borrow == left + BorrowAfter(diff, left, borrow) * BASE
  {
    var t := left - right - borrow;
    if t >= 0 {
      DivModUnique(t, BASE, 0, t);
    } else {
      DivModUnique(t, BASE, -1, t + BASE);
    }
  }

  /** One more word of x + y + carry == z + carry'. */
  lemma ExtendSum(x: seq<word>, a: word, y: seq<word>, b: word, c: word, z: seq<word>, s: word, c': word)
    requires |x| == |y| == |z|
    requires Val(x) + Val(y) == Val(z) + Up(c, |z|)
    requires a + b + c == s + c' * BASE
    ensures Val(x + [a]) + Val(y + [b]) == Val(z + [s]) + Up(c', |z| + 1)
  {
    var n := |z|;
    ValSnoc(x, a);
    ValSnoc(y, b);
    ValSnoc(z, s);
    UpAdd(a, b, n);
    UpAdd(a + b, c, n);
    UpAdd(s, c' * BASE, n);
    UpSucc(c', n);
  }

  /** result := left + right, in place if the arrays are the same; returns the carry. */
  method Add(result: array<word>, left: array<word>, right: array<word>, n: nat) returns (carry: word)
    requires n <= result.Length && n <= left.Length && n <= right.Length
    modifies result
    ensures carry <= 1
    ensures Val(result[..n]) + carry * Pow(n) == old(Val(left[..n])) + old(Val(right[..n]))
    ensures result[n..] == old(result[n..])
  {
    carry := 0;
    ghost var l, r := left[..n], right[..n];
    for i := 0 to n
      invariant carry <= 1
      invariant Val(l[..i]) + Val(r[..i]) == Val(result[..i]) + Up(carry, i)
      invariant forall j | i <= j < result.Length :: result[j] == old(result[j])
      invariant forall j | i <= j < n :: left[j] == l[j] && right[j] == r[j]
    {
      ghost var done, c := result[..i], carry;
      AddWord(left[i], right[i], carry);
      var sum: word := (left[i] + right[i] + carry) % BASE;
      if sum != left[i] {
        carry := if sum < left[i] then 1 else 0;
      }
      result[i] := sum;
      ExtendSum(l[..i], l[i], r[..i], r[i], c, done, sum, carry);
      assert l[..i + 1] == l[..i] + [l[i]] && r[..i + 1] == r[..i] + [r[i]];
      assert result[..i + 1] == done + [sum];
    }
    assert l[..n] == l && r[..n] == r;
    UpIsProduct(carry, n);
  }

  /** result := left - right, in place if the arrays are the same; returns the borrow. */
  method Sub(result: array<word>, left: array<word>, right: array<word>, n: nat) returns (borrow: word)
    requires n <= result.Length && n <= left.Length && n <= right.Length
    modifies result
    ensures borrow <= 1
    ensures Val(result[..n]) == old(Val(left[..n])) - old(Val(right[..n])) + borrow * Pow(n)
    ensures result[n..] == old(result[n..])
  {
    borrow := 0;
    ghost var l, r := left[..n], right[..n];
    for i := 0 to n
      invariant borrow <= 1
      invariant Val(result[..i]) + Val(r[..i]) == Val(l[..i]) + Up(borrow, i)
      invariant forall j | i <= j < result.Length :: result[j] == old(result[j])
      invariant forall j | i <= j < n :: left[j] == l[j] && right[j] == r[j]
    {
      ghost var done, c := result[..i], borrow;
      SubWord(left[i], right[i], borrow);
      var diff: word := (left[i] - right[i] - borrow) % BASE;
      if diff != left[i] {
        borrow := if diff > left[i] then 1 else 0;
      }
      result[i] := diff;
      ExtendSum(done, diff, r[..i], r[i], c, l[..i], l[i], borrow);
      assert l[..i + 1] == l[..i] + [l[i]] && r[..i + 1] == r[..i] + [r[i]];
      assert result[..i + 1] == done + [diff];
    }
    assert l[..n] == l && r[..n] == r;
    UpIsProduct(borrow, n);
  }
}
