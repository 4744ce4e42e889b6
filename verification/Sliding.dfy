/** The signed sliding-window form of a scalar, and a * A + b * B computed from it in an arbitrary abelian group. */
module Sliding {
  import opened Bits
  import opened Limbs
  import opened Group

  type int8 = x: int | -128 <= x < 128

  /** The number with signed digits s, digit j having weight 2^j. */
  function Digits(s: seq<int>): int {
    if |s| == 0 then 0 else s[0] + 2 * Digits(s[1..])
  }

  lemma {:induction false} DigitsUpdate(s: seq<int>, i: nat, d: int)
    requires i < |s|
    ensures Digits(s[i := s[i] + d]) == Digits(s) + Dbl(d, i)
  {
    var t := s[i := s[i] + d];
    if i == 0 {
      assert t[1..] == s[1..];
    } else {
      assert t[1..] == s[1..][i - 1 := s[1..][i - 1] + d];
      DigitsUpdate(s[1..], i - 1, d);
    }
  }

  /** The digits below position i, and those from i on. */
  lemma {:induction false} DigitsSplit(s: seq<int>, i: nat)
    requires i <= |s|
    ensures Digits(s) == Digits(s[..i]) + Dbl(Digits(s[i..]), i)
  {
    if i == 0 {
      assert s[0..] == s;
    } else {
      assert s[..i][1..] == s[1..][..i - 1] && s[1..][i - 1..] == s[i..];
      DigitsSplit(s[1..], i - 1);
    }
  }

  lemma {:induction false} DigitsZero(s: seq<int>)
    requires forall j | 0 <= j < |s| :: s[j] == 0
    ensures Digits(s) == 0
  {
    if |s| > 0 {
      DigitsZero(s[1..]);
    }
  }

  // ---- the bits of the scalar ----

  /** 1 & (a[i >> 3] >> (i & 7)) */
  function BitAt(a: seq<byte>, i: nat): (b: int8)
    requires i / 8 < |a|
    ensures b == 0 || b == 1
  {
    Bit(a[i / 8], i % 8)
  }

  lemma BitOfBytes(a: seq<byte>, i: nat)
    requires i / 8 < |a|
    ensures BitAt(a, i) == Bit(Bytes(a), i)
  {
    var q, r := i / 8, i % 8;
    ShrBytes(a, q);
    ShrShr(Bytes(a), 8 * q, r);
    assert a[q..][1..] == a[q + 1..];
    var rest := Bytes(a[q + 1..]);
    DblBy8(rest, 0);
    ShrOfSum(a[q], rest, r, 8);
    assert Dbl(rest, 8 - r) == 2 * Dbl(rest, 7 - r);
  }

  /** The bits of x are digits of x. */
  lemma {:induction false} BitsAreDigits(s: seq<int>, x: nat)
    requires x < Dbl(1, |s|)
    requires forall j | 0 <= j < |s| :: s[j] == Bit(x, j)
    ensures Digits(s) == x
  {
    if |s| > 0 {
      forall j | 0 <= j < |s| - 1
        ensures s[1..][j] == Bit(x / 2, j)
      {
        assert s[j + 1] == Bit(x, j + 1);
        ShrShr(x, 1, j);
        assert Shr(x, 1) == x / 2;
      }
      assert s[0] == Bit(x, 0) == x % 2;
      BitsAreDigits(s[1..], x / 2);
    }
  }

  // ---- slide ----

  /** Zero, or odd and at most 15 in size. */
  predicate WindowDigit(d: int) {
    d == 0 || (d % 2 == 1 && -15 <= d <= 15)
  }

  /** After a nonzero digit at one of the first n positions come four zeros. */
  ghost predicate Spaced(s: seq<int>, n: nat)
    requires n <= |s|
  {
    && (forall j | 0 <= j < n :: WindowDigit(s[j]))
    && (forall j, k | 0 <= j < n && j < k < j + 5 && k < |s| && s[j] != 0 :: s[k] == 0)
  }

  /** The positions from n on still hold bits. */
  ghost predicate BitsFrom(s: seq<int>, n: nat) {
    forall j | n <= j < |s| :: s[j] == 0 || s[j] == 1
  }

  lemma DblTop(x: int, n: nat)
    requires n > 0
    ensures Dbl(x, n) == 2 * Dbl(x, n - 1)
  {
  }

  /** The digits done so far are small against the next position they leave free. */
  lemma {:induction false} LowPart(s: seq<int>, n: nat)
    requires n <= |s| && Spaced(s, n)
    ensures -Dbl(1, n + 3) < Digits(s[..n]) < Dbl(1, n + 3)
  {
    DblPositive(n + 3);
    if n > 0 {
      assert s[..n] == s[..n - 1] + [s[n - 1]];
      DigitsSplit(s[..n], n - 1);
      assert s[..n][..n - 1] == s[..n - 1] && s[..n][n - 1..] == [s[n - 1]];
      assert [s[n - 1]][1..] == [];
      LowPart(s, n - 1);
      if s[n - 1] == 0 {
        DblZero(n - 1);
      } else {
        Gap(s, n - 1);
        DblIsProduct(s[n - 1], n - 1);
        DblIsProduct(15, n - 1);
        DblMonotone(s[n - 1], 15, n - 1);
        DblMonotone(-15, s[n - 1], n - 1);
        DblNegate(15, n - 1);
        Sixteen(n - 1);
      }
    }
  }

  /** 15 * 2^n + 2^(n-1) < 2^(n+4) */
  lemma Sixteen(n: nat)
    ensures Dbl(1, n + 4) == Dbl(15, n) + Dbl(1, n) && Dbl(1, n) > 0
  {
    DblDbl(1, 4, n);
    DblAdd(15, 1, n);
    DblPositive(n);
    assert Dbl(1, 4) == 2 * Dbl(1, 3) == 4 * Dbl(1, 2) == 8 * Dbl(1, 1) == 16 * Dbl(1, 0);
  }

  /** Below a nonzero digit at n everything is smaller than half of its weight. */
  lemma {:induction false} Gap(s: seq<int>, n: nat)
    requires n < |s| && Spaced(s, n) && s[n] != 0
    ensures -Dbl(1, n) < Digits(s[..n]) < Dbl(1, n)
  {
    DblPositive(n);
    var m: nat := if n < 4 then 0 else n - 4;
    DigitsSplit(s[..n], m);
    assert s[..n][..m] == s[..m];
    forall j | 0 <= j < n - m
      ensures s[..n][m..][j] == 0
    {
      assert s[m + j] == 0;
    }
    DigitsZero(s[..n][m..]);
    DblZero(m);
    if n < 4 {
      assert s[..0] == [];
    } else {
      LowPart(s, m);
      DblTop(1, n);
    }
  }

  /** Adds 2^from in binary: the first zero at or after `from` becomes one, the ones before it become zero. */
  method Ripple(r: array<int8>, from: nat)
    requires r.Length == 256 && from < 256 && BitsFrom(r[..], from)
    requires Digits(r[..]) + Dbl(1, from) < Dbl(1, 255) && Digits(r[..from]) >= -Dbl(1, 255)
    modifies r
    ensures Digits(r[..]) == old(Digits(r[..])) + Dbl(1, from)
    ensures BitsFrom(r[..], from) && forall j | 0 <= j < from :: r[j] == old(r[j])
    ensures old(r[from]) == 1 ==> r[from] == 0
  {
    ghost var total := Digits(r[..]) + Dbl(1, from);
    var k := from;
    while k < 256
      invariant from <= k <= 256 && BitsFrom(r[..], from)
      invariant forall j | 0 <= j < from :: r[j] == old(r[j])
      invariant forall j | from <= j < k :: r[j] == 0
      invariant Digits(r[..]) + Dbl(1, k) == total
      invariant k == from ==> r[from] == old(r[from])
    {
      ghost var s := r[..];
      if r[k] == 0 {
        r[k] := 1;
        DigitsUpdate(s, k, 1);
        assert r[..] == s[k := s[k] + 1];
        return;
      }
      r[k] := 0;
      DigitsUpdate(s, k, -1);
      DblNegate(1, k);
      DblTop(1, k + 1);
      assert r[..] == s[k := s[k] + -1];
      k := k + 1;
    }
    RunOff(r[..], old(r[..]), from, total);
    assert false;
  }

  /** Running past the last position would need a number of 2^255 or more. */
  lemma RunOff(s: seq<int>, t: seq<int>, from: nat, total: int)
    requires |s| == |t| == 256 && from < 256 && s[..from] == t[..from]
    requires forall j | from <= j < 256 :: s[j] == 0
    requires Digits(s) + Dbl(1, 256) == total && Digits(t[..from]) >= -Dbl(1, 255)
    ensures total >= Dbl(1, 255)
  {
    DigitsSplit(s, from);
    DigitsZero(s[from..]);
    DblZero(from);
    DblTop(1, 256);
  }

  /** The largest digit before step b. */
  function Reach(b: nat): int {
    if b <= 1 then 1 else if b == 2 then 3 else if b == 3 then 7 else 15
  }

  lemma Weights(b: nat)
    requires 1 <= b <= 6
    ensures Dbl(1, b) == (if b == 1 then 2 else if b == 2 then 4 else if b == 3 then 8 else if b == 4 then 16
                          else if b == 5 then 32 else 64)
    ensures Dbl(0, b) == 0
  {
    assert Dbl(1, 1) == 2 && Dbl(1, 2) == 4 && Dbl(1, 3) == 8 && Dbl(1, 4) == 16 && Dbl(1, 5) == 32 && Dbl(1, 6) == 64;
    DblZero(b);
  }

  /** Takes the four positions after i into digit i. */
  method Window(r: array<int8>, i: nat)
    requires r.Length == 256 && i < 256 && r[i] == 1
    requires Spaced(r[..], i) && BitsFrom(r[..], i) && Digits(r[..]) < Dbl(1, 255)
    modifies r
    ensures Digits(r[..]) == old(Digits(r[..])) && Spaced(r[..], i + 1) && BitsFrom(r[..], i + 1)
  {
    var b := 1;
    while b <= 6 && i + b < 256
      invariant 1 <= b <= 7 && Digits(r[..]) == old(Digits(r[..]))
      invariant forall j | 0 <= j < i :: r[j] == old(r[j])
      invariant BitsFrom(r[..], i + 1)
      invariant forall j | i < j < i + b && j < i + 5 && j < 256 :: r[j] == 0
      invariant r[i] % 2 == 1 && r[i] <= Reach(b) && (if b <= 4 then 1 <= r[i] else -15 <= r[i])
    {
      if r[i + b] != 0 {
        var stop := TakeBit(r, i, b);
        if stop {
          break;
        }
      }
      b := b + 1;
    }
    Widen(r[..], old(r[..]), i);
  }

  /** Brings the bit at i + b into digit i: added for b <= 3, subtracted with a carry for b = 4, left alone above. */
  method TakeBit(r: array<int8>, i: nat, b: nat) returns (stop: bool)
    requires r.Length == 256 && 1 <= b <= 6 && i + b < 256 && r[i + b] == 1
    requires Spaced(r[..], i) && BitsFrom(r[..], i + 1) && Digits(r[..]) < Dbl(1, 255)
    requires r[i] % 2 == 1 && r[i] <= Reach(b) && (if b <= 4 then 1 <= r[i] else -15 <= r[i])
    requires forall j | i < j < i + b && j < i + 5 :: r[j] == 0
    modifies r
    ensures Digits(r[..]) == old(Digits(r[..])) && BitsFrom(r[..], i + 1)
    ensures forall j | 0 <= j < i + b && j != i :: r[j] == old(r[j])
    ensures r[i] % 2 == 1 && r[i] <= Reach(b + 1) && (if b <= 3 then 1 <= r[i] else -15 <= r[i])
    ensures stop <==> b >= 5
    ensures !stop ==> r[i + b] == 0
  {
    Weights(b);
    stop := false;
    if r[i] + Dbl(r[i + b], b) <= 15 {
      Absorb(r, i, b);
    } else if r[i] - Dbl(r[i + b], b) >= -15 {
      Borrow(r, i, b);
    } else {
      stop := true;
    }
  }

  /** r[i] += 1 << b and r[i + b] = 0. */
  method Absorb(r: array<int8>, i: nat, b: nat)
    requires r.Length == 256 && 1 <= b && i + b < 256 && r[i + b] == 1 && r[i] + Dbl(1, b) <= 15 && Dbl(1, b) > 0
    modifies r
    ensures Digits(r[..]) == old(Digits(r[..]))
    ensures r[i] == old(r[i]) + Dbl(1, b) && r[i + b] == 0
    ensures forall j | 0 <= j < 256 && j != i && j != i + b :: r[j] == old(r[j])
  {
    ghost var s: seq<int> := r[..];
    var d := Dbl(r[i + b], b);
    r[i] := r[i] + d;
    r[i + b] := 0;
    DigitsUpdate(s, i, d);
    DigitsUpdate(s[i := s[i] + d], i + b, -1);
    assert r[..] == s[i := s[i] + d][i + b := s[i + b] + -1];
    DblDbl(1, b, i);
    DblNegate(1, i + b);
  }

  /** r[i] -= 1 << b, made up for by a carry into position i + b. */
  method Borrow(r: array<int8>, i: nat, b: nat)
    requires r.Length == 256 && b == 4 && i + b < 256 && r[i + b] == 1 && 1 <= r[i] <= 15
    requires Spaced(r[..], i) && BitsFrom(r[..], i + 1) && Digits(r[..]) < Dbl(1, 255)
    requires forall j | i < j < i + b :: r[j] == 0
    modifies r
    ensures Digits(r[..]) == old(Digits(r[..]))
    ensures r[i] == old(r[i]) - 16 && r[i + b] == 0 && BitsFrom(r[..], i + 1)
    ensures forall j | 0 <= j < i + b && j != i :: r[j] == old(r[j])
  {
    ghost var s: seq<int> := r[..];
    Weights(b);
    var d := Dbl(r[i + b], b);
    r[i] := r[i] - d;
    DigitsUpdate(s, i, -d);
    assert r[..] == s[i := s[i] + -d];
    DblNegate(d, i);
    DblDbl(1, b, i);
    BelowCarry(s, r[..], i);
    Ripple(r, i + b);
  }

  /** The digits below the carry are not large enough to let it run off the end. */
  lemma BelowCarry(s: seq<int>, t: seq<int>, i: nat)
    requires |s| == |t| == 256 && i + 4 < 256 && Spaced(s, i) && s[i] != 0
    requires t == s[i := t[i]] && -15 <= t[i] <= 15 && forall j | i < j < i + 4 :: s[j] == 0
    ensures Digits(t[..i + 4]) >= -Dbl(1, 255)
  {
    Gap(s, i);
    DigitsSplit(t[..i + 4], i);
    assert t[..i + 4][..i] == s[..i];
    var top := t[..i + 4][i..];
    assert top[0] == t[i];
    assert top[1..] == t[i + 1..i + 4];
    DigitsZero(top[1..]);
    DblMonotone(-15, t[i], i);
    DblNegate(15, i);
    Sixteen(i);
    DblDbl(1, i + 4, 255 - (i + 4));
    DblPositive(255 - (i + 4));
    DblPositive(i + 4);
    DblDbl(1, 255 - (i + 4), i + 4);
    DblMonotone(1, Dbl(1, 255 - (i + 4)), i + 4);
  }

  /** One more digit is done. */
  lemma Widen(s: seq<int>, t: seq<int>, i: nat)
    requires |s| == |t| == 256 && i < 256 && Spaced(t, i) && s[..i] == t[..i] && t[i] != 0
    requires WindowDigit(s[i]) && forall j | i < j < i + 5 && j < 256 :: s[j] == 0
    ensures Spaced(s, i + 1)
  {
  }

  /** A bit that stays zero is a digit that needs no window. */
  lemma SkipZero(s: seq<int>, i: nat)
    requires i < |s| && Spaced(s, i) && BitsFrom(s, i) && s[i] == 0
    ensures Spaced(s, i + 1) && BitsFrom(s, i + 1)
  {
  }

  lemma ScalarRange(a: seq<byte>)
    requires |a| == 32 && a[31] <= 127
    ensures Bytes(a) < Dbl(1, 255)
  {
    assert a == a[..31] + [a[31]];
    BytesAppend(a[..31], [a[31]]);
    assert [a[31]][1..] == [];
    BytesBound(a[..31]);
    DblMonotone(a[31] + 1, 128, 248);
    DblAdd(a[31], 1, 248);
    DblDbl(1, 7, 248);
    assert Dbl(1, 7) == 2 * Dbl(1, 6) == 4 * Dbl(1, 5) == 8 * Dbl(1, 4) == 16 * Dbl(1, 3) == 32 * Dbl(1, 2)
        == 64 * Dbl(1, 1);
  }

  /** The same number in digits that are zero or odd between -15 and 15, any two nonzero ones at least five apart. */
  method Slide(r: array<int8>, a: seq<byte>)
    requires r.Length == 256 && |a| == 32 && a[31] <= 127
    modifies r
    ensures Digits(r[..]) == Bytes(a)
    ensures Spaced(r[..], 256)
  {
    var i := 0;
    while i < 256
      invariant 0 <= i <= 256
      invariant forall j | 0 <= j < i :: r[j] == BitAt(a, j)
    {
      r[i] := BitAt(a, i);
      i := i + 1;
    }
    StartDigits(a, r[..]);
    i := 0;
    while i < 256
      invariant 0 <= i <= 256
      invariant Spaced(r[..], i) && BitsFrom(r[..], i) && Digits(r[..]) == Bytes(a) < Dbl(1, 255)
    {
      if r[i] != 0 {
        Window(r, i);
      } else {
        SkipZero(r[..], i);
      }
      i := i + 1;
    }
  }

  lemma StartDigits(a: seq<byte>, s: seq<int>)
    requires |a| == 32 && a[31] <= 127 && |s| == 256
    requires forall i | 0 <= i < 256 :: s[i] == BitAt(a, i)
    ensures Digits(s) == Bytes(a) < Dbl(1, 255)
  {
    ScalarRange(a);
    DblTop(1, 256);
    forall i | 0 <= i < 256
      ensures s[i] == Bit(Bytes(a), i)
    {
      BitOfBytes(a, i);
    }
    BitsAreDigits(s, Bytes(a));
  }

  // ---- ge_double_scalarmult_vartime ----

  /** m * A + n * B */
  function Combination<G>(g: Group<G>, m: int, n: int, a: G, b: G): G {
    g.add(Times(g, m, a), Times(g, n, b))
  }

  /** The odd multiples p, 3p, ..., 15p. */
  ghost predicate OddMultiples<G>(g: Group<G>, t: seq<G>, p: G) {
    |t| == 8 && forall j | 0 <= j < 8 :: t[j] == Mul(g, 2 * j + 1, p)
  }

  lemma Regroup<G(!new)>(g: Group<G>, x: G, y: G, u: G, v: G)
    requires Abelian(g)
    ensures g.add(g.add(x, y), g.add(u, v)) == g.add(g.add(x, u), g.add(y, v))
  {
    assert Assoc(g, x, y, g.add(u, v)) && Assoc(g, y, u, v) && Comm(g, y, u);
    assert Assoc(g, u, y, v) && Assoc(g, x, u, g.add(y, v));
  }

  lemma CombinationAdd<G(!new)>(g: Group<G>, m: int, n: int, j: int, k: int, a: G, b: G)
    requires Abelian(g)
    ensures g.add(Combination(g, m, n, a, b), Combination(g, j, k, a, b)) == Combination(g, m + j, n + k, a, b)
  {
    TimesAdd(g, m, j, a);
    TimesAdd(g, n, k, b);
    Regroup(g, Times(g, m, a), Times(g, n, b), Times(g, j, a), Times(g, k, b));
  }

  lemma OnlyFirst<G(!new)>(g: Group<G>, j: int, a: G, b: G)
    requires Abelian(g)
    ensures Combination(g, j, 0, a, b) == Times(g, j, a)
    ensures Combination(g, 0, j, a, b) == Times(g, j, b)
  {
    assert Unit(g, Times(g, j, a)) && Comm(g, g.zero, Times(g, j, b)) && Unit(g, Times(g, j, b));
  }

  /** A signed odd digit d picks entry |d| / 2, which exists and is |d| times the point. */
  lemma DigitEntry<G(!new)>(g: Group<G>, t: seq<G>, p: G, d: int)
    requires Abelian(g) && OddMultiples(g, t, p) && WindowDigit(d) && d != 0
    ensures d > 0 ==> 0 <= d / 2 < 8 && t[d / 2] == Times(g, d, p)
    ensures d < 0 ==> 0 <= -d / 2 < 8 && g.neg(t[-d / 2]) == Times(g, d, p)
  {
    if d > 0 {
      assert 2 * (d / 2) + 1 == d;
    } else {
      assert 2 * (-d / 2) + 1 == -d;
    }
  }

  /** Adds d times the point that table t belongs to. */
  method AddDigit<G(!new)>(g: Group<G>, t: array<G>, u: G, d: int8, ghost p: G) returns (r: G)
    requires Abelian(g) && OddMultiples(g, t[..], p) && WindowDigit(d)
    ensures r == g.add(u, Times(g, d, p))
  {
    r := u;
    if d != 0 {
      DigitEntry(g, t[..], p, d);
    } else {
      assert Unit(g, u);
    }
    if d > 0 {
      r := g.add(u, t[d / 2]);
    } else if d < 0 {
      r := Minus(g, u, t[-d / 2]);
    }
  }

  /** Odd multiples, each from the one before and the double of the first. */
  lemma NextOdd<G(!new)>(g: Group<G>, x: G, j: nat, a: G)
    requires Abelian(g) && x == Mul(g, 2 * j + 1, a)
    ensures g.add(g.add(a, a), x) == Mul(g, 2 * (j + 1) + 1, a)
  {
    SmallMultiples(g, a);
    MulAdd(g, 2, 2 * j + 1, a);
  }

  /** A, 3A, 5A, ..., 15A. */
  method OddTable<G(!new)>(g: Group<G>, a: G) returns (t: array<G>)
    requires Abelian(g)
    ensures fresh(t) && OddMultiples(g, t[..], a)
  {
    var a2 := g.add(a, a);
    SmallMultiples(g, a);
    NextOdd(g, a, 0, a);
    var a3 := g.add(a2, a);
    NextOdd(g, a3, 1, a);
    var a5 := g.add(a2, a3);
    NextOdd(g, a5, 2, a);
    var a7 := g.add(a2, a5);
    NextOdd(g, a7, 3, a);
    var a9 := g.add(a2, a7);
    NextOdd(g, a9, 4, a);
    var a11 := g.add(a2, a9);
    NextOdd(g, a11, 5, a);
    var a13 := g.add(a2, a11);
    NextOdd(g, a13, 6, a);
    var a15 := g.add(a2, a13);
    var table := [a, a3, a5, a7, a9, a11, a13, a15];
    t := new G[8] (i requires 0 <= i < 8 => table[i]);
    assert t[..] == table;
  }

  /** a * A + b * B, with bTable the odd multiples of B. */
  method DoubleScalarMult<G(!new)>(g: Group<G>, a: seq<byte>, pointA: G, b: seq<byte>, bTable: array<G>,
                                   ghost pointB: G) returns (r: G)
    requires Abelian(g) && |a| == 32 && |b| == 32 && a[31] <= 127 && b[31] <= 127
    requires OddMultiples(g, bTable[..], pointB)
    ensures r == Combination(g, Bytes(a), Bytes(b), pointA, pointB)
  {
    var aSlide, bSlide := new int8[256], new int8[256];
    Slide(aSlide, a);
    Slide(bSlide, b);
    var aTable := OddTable(g, pointA);
    var i := TopDigit(aSlide, bSlide);
    r := Accumulate(g, aSlide, aTable, bSlide, bTable, i, pointA, pointB);
  }

  /** The highest position with a nonzero digit, or -1. */
  method TopDigit(aSlide: array<int8>, bSlide: array<int8>) returns (i: int)
    requires aSlide.Length == 256 && bSlide.Length == 256
    ensures -1 <= i < 256
    ensures forall j | i < j < 256 :: aSlide[j] == 0 && bSlide[j] == 0
    ensures i >= 0 ==> aSlide[i] != 0 || bSlide[i] != 0
  {
    i := 255;
    while i >= 0
      invariant -1 <= i <= 255
      invariant forall j | i < j < 256 :: aSlide[j] == 0 && bSlide[j] == 0
    {
      if aSlide[i] != 0 || bSlide[i] != 0 {
        break;
      }
      i := i - 1;
    }
  }

  method Accumulate<G(!new)>(g: Group<G>, aSlide: array<int8>, aTable: array<G>, bSlide: array<int8>, bTable: array<G>,
                             top: int, ghost a: G, ghost b: G) returns (r: G)
    requires Abelian(g) && OddMultiples(g, aTable[..], a) && OddMultiples(g, bTable[..], b)
    requires aSlide.Length == 256 && bSlide.Length == 256 && -1 <= top < 256
    requires forall j | 0 <= j < 256 :: WindowDigit(aSlide[j]) && WindowDigit(bSlide[j])
    requires forall j | top < j < 256 :: aSlide[j] == 0 && bSlide[j] == 0
    ensures r == Combination(g, Digits(aSlide[..]), Digits(bSlide[..]), a, b)
  {
    ghost var s: seq<int>, t: seq<int> := aSlide[..], bSlide[..];
    r := g.zero;
    AllZeroFrom(s, top + 1);
    AllZeroFrom(t, top + 1);
    OnlyFirst(g, 0, a, b);
    var i := top;
    while i >= 0
      invariant -1 <= i <= top
      invariant r == Combination(g, DigitsFrom(s, i + 1), DigitsFrom(t, i + 1), a, b)
    {
      r := ScalarStep(g, r, aTable, aSlide[i], bTable, bSlide[i], a, b, DigitsFrom(s, i + 1), DigitsFrom(t, i + 1));
      i := i - 1;
    }
    FromStart(s, 0);
    FromStart(t, 0);
  }

  /** The number of the digits from position i on. */
  function DigitsFrom(s: seq<int>, i: nat): int
    requires i <= |s|
    decreases |s| - i
  {
    if i == |s| then 0 else s[i] + 2 * DigitsFrom(s, i + 1)
  }

  lemma {:induction false} AllZeroFrom(s: seq<int>, i: nat)
    requires i <= |s| && forall j | i <= j < |s| :: s[j] == 0
    ensures DigitsFrom(s, i) == 0
    decreases |s| - i
  {
    if i < |s| {
      AllZeroFrom(s, i + 1);
    }
  }

  lemma {:induction false} FromStart(s: seq<int>, i: nat)
    requires i <= |s|
    ensures DigitsFrom(s, i) == Digits(s[i..])
    ensures i == 0 ==> DigitsFrom(s, i) == Digits(s)
    decreases |s| - i
  {
    assert i == 0 ==> s[i..] == s;
    if i < |s| {
      assert s[i..][1..] == s[i + 1..];
      FromStart(s, i + 1);
    }
  }

  /** One doubling and the additions for one digit of each scalar. */
  method ScalarStep<G(!new)>(g: Group<G>, r: G, aTable: array<G>, d: int8, bTable: array<G>, e: int8,
                             ghost a: G, ghost b: G, ghost m: int, ghost n: int) returns (t: G)
    requires Abelian(g) && OddMultiples(g, aTable[..], a) && OddMultiples(g, bTable[..], b)
    requires WindowDigit(d) && WindowDigit(e) && r == Combination(g, m, n, a, b)
    ensures t == Combination(g, d as int + 2 * m, e as int + 2 * n, a, b)
  {
    t := g.add(r, r);
    t := AddDigit(g, aTable, t, d, a);
    t := AddDigit(g, bTable, t, e, b);
    DoubledDigits(g, m, n, d, e, a, b);
  }

  lemma DoubledDigits<G(!new)>(g: Group<G>, m: int, n: int, d: int, e: int, a: G, b: G)
    requires Abelian(g)
    ensures var r := Combination(g, m, n, a, b);
            g.add(g.add(g.add(r, r), Times(g, d, a)), Times(g, e, b)) == Combination(g, d + 2 * m, e + 2 * n, a, b)
  {
    CombinationAdd(g, m, n, m, n, a, b);
    TwoDigits(g, m + m, n + n, d, e, a, b);
  }

  lemma TwoDigits<G(!new)>(g: Group<G>, m: int, n: int, d: int, e: int, a: G, b: G)
    requires Abelian(g)
    ensures g.add(g.add(Combination(g, m, n, a, b), Times(g, d, a)), Times(g, e, b))
            == Combination(g, d + m, e + n, a, b)
  {
    OnlyFirst(g, d, a, b);
    OnlyFirst(g, e, a, b);
    CombinationAdd(g, m, n, d, 0, a, b);
    CombinationAdd(g, m + d, n, 0, e, a, b);
  }
}
