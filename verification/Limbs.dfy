/** Numbers held in limbs of mixed bit widths, as the Ed25519 field and scalar code holds them. */
module Limbs {
  import opened Arithmetic
  import opened Bits
  import Words

  type int32 = x: int | -0x8000_0000 <= x < 0x8000_0000

  type int64 = x: int | -0x8000_0000_0000_0000 <= x < 0x8000_0000_0000_0000

  type byte = x: int | 0 <= x < 256

  /** Within m of zero. */
  predicate Within(x: int, m: int) {
    -m <= x <= m
  }

  /** The number held by limbs s, limb i being w[i] bits wide; limbs may be negative or too large. */
  function Value(s: seq<int>, w: seq<nat>): int
    requires |s| == |w|
  {
    if |s| == 0 then 0 else s[0] + Dbl(Value(s[1..], w[1..]), w[0])
  }

  /** The bit position of limb i. */
  function Offset(w: seq<nat>, i: nat): nat
    requires i <= |w|
  {
    if i == 0 then 0 else w[0] + Offset(w[1..], i - 1)
  }

  lemma {:induction false} OffsetNext(w: seq<nat>, i: nat)
    requires i < |w|
    ensures Offset(w, i + 1) == Offset(w, i) + w[i]
  {
    if i > 0 {
      OffsetNext(w[1..], i - 1);
    }
  }

  /** Adding d to one limb. */
  lemma {:induction false} ValueUpdate(s: seq<int>, w: seq<nat>, i: nat, d: int)
    requires |s| == |w| && i < |s|
    ensures Value(s[i := s[i] + d], w) == Value(s, w) + Dbl(d, Offset(w, i))
  {
    var t := s[i := s[i] + d];
    if i == 0 {
      assert t[1..] == s[1..];
    } else {
      assert t[1..] == s[1..][i - 1 := s[1..][i - 1] + d];
      ValueUpdate(s[1..], w[1..], i - 1, d);
      DblAdd(Value(s[1..], w[1..]), Dbl(d, Offset(w[1..], i - 1)), w[0]);
      DblDbl(d, Offset(w[1..], i - 1), w[0]);
    }
  }

  /** Moving a carry to the next limb keeps the number. */
  lemma CarryKeepsValue(s: seq<int>, w: seq<nat>, i: nat, c: int)
    requires |s| == |w| && i + 1 < |s|
    ensures Value(s[i := s[i] - Dbl(c, w[i])][i + 1 := s[i + 1] + c], w) == Value(s, w)
  {
    var t := s[i := s[i] + Dbl(-c, w[i])];
    DblNegate(c, w[i]);
    ValueUpdate(s, w, i, Dbl(-c, w[i]));
    ValueUpdate(t, w, i + 1, c);
    OffsetNext(w, i);
    DblDbl(-c, w[i], Offset(w, i));
    DblNegate(c, Offset(w, i + 1));
  }

  lemma DblNegate(c: int, n: nat)
    ensures Dbl(-c, n) == -Dbl(c, n)
  {
    DblAdd(0, c, n);
    DblAdd(0, 0, n);
  }

  // ---- bytes ----

  /** The number a byte string stands for, least significant byte first. */
  function Bytes(s: seq<byte>): nat {
    if |s| == 0 then 0 else s[0] + 256 * Bytes(s[1..])
  }

  lemma {:induction false} BytesBound(s: seq<byte>)
    ensures Bytes(s) < Dbl(1, 8 * |s|)
  {
    if |s| > 0 {
      BytesBound(s[1..]);
      DblBy8(1, 8 * (|s| - 1));
    }
  }

  lemma {:induction false} BytesInjective(s: seq<byte>, t: seq<byte>)
    requires |s| == |t| && Bytes(s) == Bytes(t)
    ensures s == t
  {
    if |s| > 0 {
      BytesInjective(s[1..], t[1..]);
      assert s == [s[0]] + s[1..] && t == [t[0]] + t[1..];
    }
  }

  lemma {:induction false} BytesAppend(s: seq<byte>, t: seq<byte>)
    ensures Bytes(s + t) == Bytes(s) + Dbl(Bytes(t), 8 * |s|)
  {
    if |s| == 0 {
      assert s + t == t;
    } else {
      assert (s + t)[1..] == s[1..] + t;
      BytesAppend(s[1..], t);
      DblBy8(Bytes(t), 8 * (|s| - 1));
    }
  }

  /** Dropping whole bytes is a right shift. */
  lemma {:induction false} ShrBytes(s: seq<byte>, q: nat)
    requires q <= |s|
    ensures Shr(Bytes(s), 8 * q) == Bytes(s[q..])
  {
    if q == 0 {
      assert s[0..] == s;
    } else {
      ShrBytes(s, q - 1);
      ShrBy8(Bytes(s), 8 * (q - 1));
      assert s[q - 1..] == [s[q - 1]] + s[q..];
      assert s[q - 1..][1..] == s[q..];
    }
  }

  /** A byte string is determined by the bytes of its number. */
  lemma {:induction false} BytesOf(s: seq<byte>, x: nat)
    requires x < Dbl(1, 8 * |s|)
    requires forall j | 0 <= j < |s| :: s[j] == Shr(x, 8 * j) % 256
    ensures Bytes(s) == x
  {
    if |s| > 0 {
      // a variable, because the verifier unrolls a recursive function that is applied to a literal
      var k: nat :| k == 8;
      ShrBy8(x, 0);
      DblBy8(1, 8 * (|s| - 1));
      forall j | 0 <= j < |s| - 1
        ensures s[1..][j] == Shr(x / 256, 8 * j) % 256
      {
        ShrShr(x, k, 8 * j);
        assert 8 * (j + 1) == k + 8 * j;
      }
      BytesOf(s[1..], x / 256);
    }
  }

  function Load3(s: seq<byte>, i: nat): nat
    requires i + 3 <= |s|
  {
    s[i] as int + 256 * (s[i + 1] as int + 256 * s[i + 2] as int)
  }

  function Load4(s: seq<byte>, i: nat): nat
    requires i + 4 <= |s|
  {
    s[i] as int + 256 * (s[i + 1] as int + 256 * (s[i + 2] as int + 256 * s[i + 3] as int))
  }

  lemma BytesHead(s: seq<byte>, i: nat)
    requires i < |s|
    ensures Bytes(s[i..]) == s[i] as int + 256 * Bytes(s[i + 1..])
  {
    assert s[i..][1..] == s[i + 1..];
  }

  lemma Load3Prefix(s: seq<byte>, i: nat)
    requires i + 3 <= |s|
    ensures Bytes(s[i..]) == Load3(s, i) + Dbl(Bytes(s[i + 3..]), 24)
  {
    BytesHead(s, i);
    BytesHead(s, i + 1);
    BytesHead(s, i + 2);
    var y := Bytes(s[i + 3..]);
    DblBy8(y, 0);
    DblBy8(y, 8);
    DblBy8(y, 16);
  }

  lemma Load4Prefix(s: seq<byte>, i: nat)
    requires i + 4 <= |s|
    ensures Bytes(s[i..]) == Load4(s, i) + Dbl(Bytes(s[i + 4..]), 32)
  {
    BytesHead(s, i);
    BytesHead(s, i + 1);
    BytesHead(s, i + 2);
    BytesHead(s, i + 3);
    var y := Bytes(s[i + 4..]);
    DblBy8(y, 0);
    DblBy8(y, 8);
    DblBy8(y, 16);
    DblBy8(y, 24);
  }

  lemma Dbl24(y: int)
    ensures Dbl(y, 24) == 0x100_0000 * y && Dbl(y, 32) == 0x1_0000_0000 * y
  {
    DblBy8(y, 0);
    DblBy8(y, 8);
    DblBy8(y, 16);
    DblBy8(y, 24);
  }

  lemma Next3(s: seq<byte>, i: nat)
    requires i + 3 <= |s|
    ensures Bytes(s[i..]) == Load3(s, i) + 0x100_0000 * Bytes(s[i + 3..])
  {
    Load3Prefix(s, i);
    Dbl24(Bytes(s[i + 3..]));
  }

  lemma Next4(s: seq<byte>, i: nat)
    requires i + 4 <= |s|
    ensures Bytes(s[i..]) == Load4(s, i) + 0x1_0000_0000 * Bytes(s[i + 4..])
  {
    Load4Prefix(s, i);
    Dbl24(Bytes(s[i + 4..]));
  }

  /** 32 bytes, four at a time. */
  lemma ByWords(s: seq<byte>)
    requires |s| == 32
    ensures Bytes(s) == Load4(s, 0)
            + 0x1_0000_0000 * (Load4(s, 4) + 0x1_0000_0000 * (Load4(s, 8) + 0x1_0000_0000 * (Load4(s, 12)
                        + 0x1_0000_0000 * (Load4(s, 16) + 0x1_0000_0000 * (Load4(s, 20) + 0x1_0000_0000 * (Load4(s, 24)
                        + 0x1_0000_0000 * Load4(s, 28)))))))
  {
    assert s[0..] == s;
    Next4(s, 0);
    Next4(s, 4);
    Next4(s, 8);
    Next4(s, 12);
    Next4(s, 16);
    Next4(s, 20);
    Next4(s, 24);
    Next4(s, 28);
  }

  const TWO256: int := 0x1_0000_0000_0000_0000_0000_0000_0000_0000_0000_0000_0000_0000_0000_0000_0000_0000

  lemma Dbl256()
    ensures Dbl(1, 256) == TWO256 && 256 * Dbl(1, 248) == TWO256
  {
    DblWords(1, 4);
    assert Words.Up(1, 4) == Words.BASE * Words.Up(1, 3) && Words.Up(1, 3) == Words.BASE * Words.Up(1, 2);
    assert Words.Up(1, 2) == Words.BASE * Words.Up(1, 1) && Words.Up(1, 1) == Words.BASE;
    DblBy8(1, 248);
  }

  // ---- limbs to bytes ----

  /** low | (high << k), where low has no bit at or above position k. */
  function Merge(low: int, high: int, k: nat): int
    requires 0 <= low < Pow2(k)
  {
    low + high * Pow2(k)
  }

  /** Every limb but the last fits its width. */
  ghost predicate Carried(s: seq<int>, w: seq<nat>) {
    |s| == |w| && (forall i | 0 <= i < |s| :: s[i] >= 0) && (forall i | 0 <= i < |s| - 1 :: s[i] < Pow2(w[i]))
  }

  lemma {:induction false} ValueNonNegative(s: seq<int>, w: seq<nat>)
    requires Carried(s, w)
    ensures Value(s, w) >= 0
  {
    if |s| > 0 {
      ValueNonNegative(s[1..], w[1..]);
      DblIsProduct(Value(s[1..], w[1..]), w[0]);
      ProductMonotone(0, Value(s[1..], w[1..]), Pow2(w[0]));
    }
  }

  /** The arithmetic right shift x >> n: the floor of the quotient. */
  function Sar(x: int, n: nat): int {
    x / Pow2(n)
  }

  lemma {:induction false} ShrIsSar(x: nat, n: nat)
    ensures Shr(x, n) == Sar(x, n)
  {
    LowAndShr(x, n);
    LowBound(x, n);
    DblIsProduct(1, n);
    DblIsProduct(Shr(x, n), n);
    DivModUnique(x, Pow2(n), Shr(x, n), Low(x, n));
  }

  /** A right shift by the width of the first limb drops it. */
  lemma ShrFirst(s: seq<int>, w: seq<nat>)
    requires Carried(s, w) && |s| > 1
    ensures Value(s, w) >= 0 && Shr(Value(s, w), w[0]) == Value(s[1..], w[1..])
  {
    ValueNonNegative(s, w);
    ValueNonNegative(s[1..], w[1..]);
    DblIsProduct(1, w[0]);
    ShrOfSum(s[0], Value(s[1..], w[1..]), w[0], w[0]);
    ShrSmall(s[0], w[0]);
  }

  /** A right shift by the position of limb m drops the limbs below it. */
  lemma {:induction false} ShrLimbs(s: seq<int>, w: seq<nat>, m: nat)
    requires Carried(s, w) && m < |s|
    ensures Value(s, w) >= 0 && Shr(Value(s, w), Offset(w, m)) == Value(s[m..], w[m..])
    decreases |s|
  {
    if m == 0 {
      ValueNonNegative(s, w);
      assert s[0..] == s && w[0..] == w;
    } else {
      ShrFirst(s, w);
      ShrShr(Value(s, w), w[0], Offset(w[1..], m - 1));
      ShrLimbs(s[1..], w[1..], m - 1);
      assert s[1..][m - 1..] == s[m..] && w[1..][m - 1..] == w[m..];
    }
  }

  lemma {:induction false} DblByteMultiple(x: int, n: nat)
    requires n >= 8
    ensures Dbl(x, n) % 256 == 0
  {
    DblBy8(x, n - 8);
  }

  lemma SameLowByte(x: int, y: int, z: int)
    requires x == y + z && z % 256 == 0
    ensures x % 256 == y % 256
  {
  }

  lemma {:induction false} DblZero(n: nat)
    ensures Dbl(0, n) == 0
  {
    if n > 0 {
      DblZero(n - 1);
    }
  }

  /** From bit a of limb m on: the rest of the limb, and the limbs above it. */
  lemma ShrInside(s: seq<int>, w: seq<nat>, m: nat, a: nat)
    requires Carried(s, w) && m < |s| && a <= w[m]
    ensures Value(s, w) >= 0
    ensures Shr(Value(s, w), Offset(w, m) + a) == Shr(s[m], a) + Dbl(Value(s[m + 1..], w[m + 1..]), w[m] - a)
  {
    ShrLimbs(s, w, m);
    ValueNonNegative(s[m + 1..], w[m + 1..]);
    ValueHead(s, w, m);
    ShrWithin(Value(s, w), s[m], Value(s[m + 1..], w[m + 1..]), Offset(w, m), a, w[m]);
  }

  lemma ShrWithin(x: nat, low: nat, high: nat, o: nat, a: nat, n: nat)
    requires a <= n && Shr(x, o) == low + Dbl(high, n)
    ensures Shr(x, o + a) == Shr(low, a) + Dbl(high, n - a)
  {
    ShrShr(x, o, a);
    ShrOfSum(low, high, a, n);
  }

  lemma ValueHead(s: seq<int>, w: seq<nat>, m: nat)
    requires |s| == |w| && m < |s|
    ensures Value(s[m..], w[m..]) == s[m] + Dbl(Value(s[m + 1..], w[m + 1..]), w[m])
  {
    assert s[m..][1..] == s[m + 1..] && w[m..][1..] == w[m + 1..];
  }

  /** The byte at bit a of limb m, when it ends inside the limb. */
  lemma ByteInside(s: seq<int>, w: seq<nat>, m: nat, a: nat)
    requires Carried(s, w) && m < |s| && a <= w[m]
    requires a + 8 <= w[m] || m == |s| - 1
    ensures Value(s, w) >= 0
    ensures Shr(Value(s, w), Offset(w, m) + a) % 256 == Sar(s[m], a) % 256
  {
    ShrInside(s, w, m, a);
    ShrIsSar(s[m], a);
    var t := Value(s[m + 1..], w[m + 1..]);
    if m < |s| - 1 {
      DblByteMultiple(t, w[m] - a);
    } else {
      DblZero(w[m] - a);
    }
    SameLowByte(Shr(Value(s, w), Offset(w, m) + a), Shr(s[m], a), Dbl(t, w[m] - a));
  }

  /** The byte that takes its low bits from limb m and the rest from limb m + 1. */
  lemma ByteAcross(s: seq<int>, w: seq<nat>, m: nat, a: nat)
    requires Carried(s, w) && m + 1 < |s| && a <= w[m] < a + 8
    requires w[m] - a + w[m + 1] >= 8 || m + 2 == |s|
    ensures Value(s, w) >= 0 && 0 <= Sar(s[m], a) < Pow2(w[m] - a)
    ensures Shr(Value(s, w), Offset(w, m) + a) % 256 == Merge(Sar(s[m], a), s[m + 1], w[m] - a) % 256
  {
    var k := w[m] - a;
    ShrInside(s, w, m, a);
    ShrIsSar(s[m], a);
    Pow2Add(a, k);
    QuotientBelow(s[m], Pow2(a), Pow2(k));
    assert s[m + 1..][1..] == s[m + 2..] && w[m + 1..][1..] == w[m + 2..];
    var u := Value(s[m + 2..], w[m + 2..]);
    DblAdd(s[m + 1], Dbl(u, w[m + 1]), k);
    DblDbl(u, w[m + 1], k);
    DblIsProduct(s[m + 1], k);
    if m + 2 < |s| {
      DblByteMultiple(u, w[m + 1] + k);
    } else {
      DblZero(w[m + 1] + k);
    }
    SameLowByte(Shr(Value(s, w), Offset(w, m) + a), Merge(Sar(s[m], a), s[m + 1], k), Dbl(u, w[m + 1] + k));
  }

  lemma QuotientBelow(x: int, p: int, q: int)
    requires 0 <= x < p * q && p > 0 && q > 0
    ensures 0 <= x / p < q
  {
    if x / p >= q {
      ProductMonotone(q, x / p, p);
    }
  }

  /** s[m] >> a as a byte. */
  function Piece(s: seq<int>, m: nat, a: nat): int
    requires m < |s|
  {
    Sar(s[m], a) % 256
  }

  /** (s[m] >> a) | (s[m + 1] << k) as a byte, with k the bits left in limb m; the two parts do not overlap. */
  function Joint(s: seq<int>, w: seq<nat>, m: nat, a: nat): int
    requires Carried(s, w) && m + 1 < |s| && a <= w[m] < a + 8
    requires w[m] - a + w[m + 1] >= 8 || m + 2 == |s|
  {
    ByteAcross(s, w, m, a);
    Merge(Sar(s[m], a), s[m + 1], w[m] - a) % 256
  }

  /** The byte that starts at bit a of limb m. */
  function ByteFrom(s: seq<int>, w: seq<nat>, m: nat, a: nat): int
    requires Carried(s, w) && m < |s| && a <= w[m]
    requires m + 1 < |s| ==> w[m] - a + w[m + 1] >= 8
  {
    if m == |s| - 1 || a + 8 <= w[m] then Piece(s, m, a) else Joint(s, w, m, a)
  }

  lemma ByteFromIs(s: seq<int>, w: seq<nat>, m: nat, a: nat)
    requires Carried(s, w) && m < |s| && a <= w[m]
    requires m + 1 < |s| ==> w[m] - a + w[m + 1] >= 8
    ensures Value(s, w) >= 0 && ByteFrom(s, w, m, a) == Shr(Value(s, w), Offset(w, m) + a) % 256
  {
    if m == |s| - 1 || a + 8 <= w[m] {
      ByteInside(s, w, m, a);
    } else {
      ByteAcross(s, w, m, a);
    }
  }
}
