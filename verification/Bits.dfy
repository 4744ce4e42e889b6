/** Bit lengths, bit tests and shifts by a variable number of bits. */
module Bits {
  import opened Arithmetic
  import opened Words

  /** x doubled n times, that is x << n without truncation. */
  function Dbl(x: int, n: nat): int {
    if n == 0 then x else 2 * Dbl(x, n - 1)
  }

  /** Two to the power n. */
  function Pow2(n: nat): (p: nat)
    ensures p > 0
  {
    if n == 0 then 1 else 2 * Pow2(n - 1)
  }

  lemma {:induction false} DblAdd(x: int, y: int, n: nat)
    ensures Dbl(x + y, n) == Dbl(x, n) + Dbl(y, n)
    ensures Dbl(x - y, n) == Dbl(x, n) - Dbl(y, n)
  {
    if n > 0 {
      DblAdd(x, y, n - 1);
    }
  }

  lemma {:induction false} DblDbl(x: int, m: nat, n: nat)
    ensures Dbl(Dbl(x, m), n) == Dbl(x, m + n)
  {
    if n > 0 {
      DblDbl(x, m, n - 1);
    }
  }

  lemma {:induction false} DblMonotone(x: int, y: int, n: nat)
    ensures x <= y <==> Dbl(x, n) <= Dbl(y, n)
  {
    if n > 0 {
      DblMonotone(x, y, n - 1);
    }
  }

  lemma {:induction false} DblIsProduct(x: int, n: nat)
    ensures Dbl(x, n) == x * Pow2(n)
  {
    if n > 0 {
      DblIsProduct(x, n - 1);
      Associate(2, x, Pow2(n - 1));
    }
  }

  lemma {:induction false} Pow2Add(m: nat, n: nat)
    ensures Pow2(m + n) == Pow2(m) * Pow2(n)
  {
    if m > 0 {
      Pow2Add(m - 1, n);
      Associate(2, Pow2(m - 1), Pow2(n));
    }
  }

  lemma {:induction false} DblUp(x: int, m: nat, n: nat)
    ensures Dbl(Up(x, n), m) == Up(Dbl(x, m), n)
  {
    if m > 0 {
      DblUp(x, m - 1, n);
      UpAdd(Dbl(x, m - 1), Dbl(x, m - 1), n);
    }
  }

  lemma Dbl64(x: int)
    ensures Dbl(x, 64) == BASE * x
  {
    DblBy8(x, 0);
    DblBy8(x, 8);
    DblBy8(x, 16);
    DblBy8(x, 24);
    DblBy8(x, 32);
    DblBy8(x, 40);
    DblBy8(x, 48);
    DblBy8(x, 56);
  }

  lemma DblBy8(x: int, n: nat)
    ensures Dbl(x, n + 8) == 256 * Dbl(x, n)
  {
    DblDbl(x, n, 8);
    var y := Dbl(x, n);
    assert Dbl(y, 8) == 2 * Dbl(y, 7) == 4 * Dbl(y, 6) == 8 * Dbl(y, 5) == 16 * Dbl(y, 4);
    assert Dbl(y, 4) == 2 * Dbl(y, 3) == 4 * Dbl(y, 2) == 8 * Dbl(y, 1) == 16 * Dbl(y, 0);
  }

  lemma Dbl21(x: int, n: nat)
    ensures Dbl(x, n + 21) == 2097152 * Dbl(x, n)
  {
    DblBy8(x, n);
    DblBy8(x, n + 8);
    DblDbl(x, n + 16, 5);
    var y := Dbl(x, n + 16);
    assert Dbl(y, 5) == 2 * Dbl(y, 4) == 4 * Dbl(y, 3) == 8 * Dbl(y, 2) == 16 * Dbl(y, 1) == 32 * Dbl(y, 0);
  }

  lemma Dbl25(x: int, n: nat)
    ensures Dbl(x, n + 25) == 0x200_0000 * Dbl(x, n)
    ensures Dbl(x, n + 26) == 0x400_0000 * Dbl(x, n)
  {
    Dbl21(x, n);
    var y := Dbl(x, n + 21);
    assert Dbl(x, n + 25) == 2 * Dbl(x, n + 24) && Dbl(x, n + 24) == 2 * Dbl(x, n + 23);
    assert Dbl(x, n + 23) == 2 * Dbl(x, n + 22) && Dbl(x, n + 22) == 2 * y;
  }

  lemma {:induction false} DblWords(x: int, n: nat)
    ensures Dbl(x, 64 * n) == Up(x, n)
  {
    if n > 0 {
      DblWords(x, n - 1);
      DblDbl(x, 64 * (n - 1), 64);
      Dbl64(Dbl(x, 64 * (n - 1)));
    }
  }

  // ---- vli_numDigits, uECC_vli_numBits ----

  /** The position after the highest nonzero word. */
  method NumDigits(vli: array<word>, maxWords: nat) returns (k: nat)
    requires maxWords <= vli.Length
    ensures k <= maxWords
    ensures k > 0 ==> vli[k - 1] != 0
    ensures forall j | k <= j < maxWords :: vli[j] == 0
  {
    k := maxWords;
    while k > 0 && vli[k - 1] == 0
      invariant k <= maxWords
      invariant forall j | k <= j < maxWords :: vli[j] == 0
    {
      k := k - 1;
    }
  }

  lemma ZerosAbove(s: seq<word>, k: nat)
    requires k <= |s| && forall j | k <= j < |s| :: s[j] == 0
    ensures Val(s) == Val(s[..k])
  {
    assert s == s[..k] + s[k..];
    ValAppend(s[..k], s[k..]);
    ValZeros(s[k..]);
    PowIsUp(k);
  }

  /** The length of the value in bits: 0 for zero, otherwise one more than the position of the top bit. */
  method NumBits(vli: array<word>, maxWords: nat) returns (bits: nat)
    requires maxWords <= vli.Length
    ensures bits <= 64 * maxWords
    ensures bits == 0 <==> Val(vli[..maxWords]) == 0
    ensures bits > 0 ==> Dbl(1, bits - 1) <= Val(vli[..maxWords]) < Dbl(1, bits)
    ensures maxWords > 0 && vli[maxWords - 1] != 0 ==> bits > 64 * (maxWords - 1)
  {
    var numDigits := NumDigits(vli, maxWords);
    ghost var s := vli[..maxWords];
    ZerosAbove(s, numDigits);
    if numDigits == 0 {
      return 0;
    }
    var digit: int := vli[numDigits - 1];
    var i := 0;
    while digit != 0
      invariant i <= 64 && digit >= 0
      invariant digit == 0 ==> i > 0
      invariant Dbl(digit, i) <= vli[numDigits - 1] < Dbl(digit + 1, i)
      invariant digit == 0 ==> Dbl(1, i - 1) <= vli[numDigits - 1]
      decreases digit
    {
      HalvingStep(digit, i, vli[numDigits - 1]);
      digit := digit / 2;
      i := i + 1;
    }
    bits := 64 * (numDigits - 1) + i;
    assert s[..numDigits] == s[..numDigits - 1] + [s[numDigits - 1]];
    BitLength(s[..numDigits - 1], s[numDigits - 1], i);
  }

  lemma HalvingStep(digit: int, i: nat, w: word)
    requires digit > 0 && Dbl(digit, i) <= w < Dbl(digit + 1, i)
    ensures Dbl(digit / 2, i + 1) <= w < Dbl(digit / 2 + 1, i + 1)
    ensures i < 64
    ensures Dbl(1, i) <= w
  {
    DblMonotone(2 * (digit / 2), digit, i);
    DblMonotone(digit + 1, 2 * (digit / 2) + 2, i);
    DblAdd(digit / 2, digit / 2, i);
    DblAdd(digit / 2 + 1, digit / 2 + 1, i);
    DblMonotone(1, digit, i);
    if i >= 64 {
      DblDbl(1, i - 64, 64);
      Dbl64(Dbl(1, i - 64));
      DblPositive(i - 64);
    }
  }

  lemma {:induction false} DblPositive(n: nat)
    ensures Dbl(1, n) >= 1 && Dbl(0, n) == 0
  {
    if n > 0 {
      DblPositive(n - 1);
    }
  }

  lemma BitLength(low: seq<word>, top: word, i: nat)
    requires i > 0 && Dbl(1, i - 1) <= top < Dbl(1, i)
    ensures Dbl(1, 64 * |low| + i - 1) <= Val(low + [top]) < Dbl(1, 64 * |low| + i)
  {
    var n := |low|;
    ValSnoc(low, top);
    ValBound(low);
    PowIsUp(n);
    UpMonotone(Dbl(1, i - 1), top, n);
    UpMonotone(top + 1, Dbl(1, i), n);
    UpAdd(top, 1, n);
    DblWords(Dbl(1, i - 1), n);
    DblWords(Dbl(1, i), n);
    DblDbl(1, i - 1, 64 * n);
    DblDbl(1, i, 64 * n);
  }

  // ---- single bits ----

  /** x halved n times, that is x >> n. */
  function Shr(x: nat, n: nat): nat {
    if n == 0 then x else Shr(x / 2, n - 1)
  }

  /** The lowest n bits of x. */
  function Low(x: nat, n: nat): nat {
    if n == 0 then 0 else x % 2 + 2 * Low(x / 2, n - 1)
  }

  function Bit(x: nat, i: nat): (b: nat)
    ensures b <= 1
  {
    Shr(x, i) % 2
  }

  lemma {:induction false} ShrShr(x: nat, m: nat, n: nat)
    ensures Shr(Shr(x, m), n) == Shr(x, m + n)
  {
    if m > 0 {
      ShrShr(x / 2, m - 1, n);
    }
  }

  lemma {:induction false} LowBound(x: nat, n: nat)
    ensures Low(x, n) < Dbl(1, n)
  {
    if n > 0 {
      LowBound(x / 2, n - 1);
    }
  }

  /** The low bits and the rest make up the number. */
  lemma {:induction false} LowAndShr(x: nat, n: nat)
    ensures x == Low(x, n) + Dbl(Shr(x, n), n)
  {
    if n > 0 {
      LowAndShr(x / 2, n - 1);
    }
  }

  lemma {:induction false} ShrSmall(x: nat, n: nat)
    requires x < Dbl(1, n)
    ensures Shr(x, n) == 0 && Low(x, n) == x
  {
    if n > 0 {
      ShrSmall(x / 2, n - 1);
    }
  }

  /** Setting bit n above n lower bits keeps those bits and becomes the top bit. */
  lemma {:induction false} ShrWithTop(x: nat, n: nat, i: nat)
    requires i <= n
    ensures Dbl(1, n) >= 1
    ensures Shr(Dbl(1, n) + Low(x, n), i) == Dbl(1, n - i) + Shr(Low(x, n), i)
    ensures i < n ==> Bit(Dbl(1, n) + Low(x, n), i) == Bit(x, i)
    decreases n
  {
    DblPositive(n);
    if i > 0 {
      ShrWithTop(x / 2, n - 1, i - 1);
      assert (Dbl(1, n) + Low(x, n)) / 2 == Dbl(1, n - 1) + Low(x / 2, n - 1);
      assert Low(x, n) / 2 == Low(x / 2, n - 1);
    }
  }

  lemma Shr64(w: word, r: nat)
    ensures Shr(w + BASE * r, 64) == r
  {
    ShrBy8(w + BASE * r, 0);
    ShrBy8(w + BASE * r, 8);
    ShrBy8(w + BASE * r, 16);
    ShrBy8(w + BASE * r, 24);
    ShrBy8(w + BASE * r, 32);
    ShrBy8(w + BASE * r, 40);
    ShrBy8(w + BASE * r, 48);
    ShrBy8(w + BASE * r, 56);
  }

  lemma ShrBy8(x: nat, n: nat)
    ensures Shr(x, n + 8) == Shr(x, n) / 256
  {
    // a variable, because the verifier unrolls a recursive function that is applied to a literal
    var k: nat :| k == 8;
    ShrShr(x, n, k);
    var y := Shr(x, n);
    LowAndShr(y, k);
    LowBound(y, k);
    DblBy8(Shr(y, k), 0);
    DblBy8(1, 0);
  }

  lemma {:induction false} ShrWords(s: seq<word>, q: nat)
    requires q <= |s|
    ensures Shr(Val(s), 64 * q) == Val(s[q..])
  {
    if q == 0 {
      assert s[0..] == s;
    } else {
      // a variable, because the verifier unrolls a recursive function that is applied to a literal
      var k: nat :| k == 64;
      Shr64(s[0], Val(s[1..]));
      ShrShr(Val(s), k, 64 * (q - 1));
      ShrWords(s[1..], q - 1);
      assert s[1..][q - 1..] == s[q..];
    }
  }

  /** Bits inside the lowest word ignore the other words. */
  lemma BitOfLowWord(w: word, r: nat, i: nat)
    requires i < 64
    ensures Bit(w + BASE * r, i) == Bit(w, i)
  {
    // a variable, because the verifier unrolls a recursive function that is applied to a literal
    var n: nat :| n == 64;
    Dbl64(r);
    ShrOfSum(w, r, i, n);
  }

  lemma {:induction false} ShrOfSum(w: nat, r: nat, i: nat, n: nat)
    requires i <= n
    ensures Dbl(r, n) >= 0 && Dbl(r, n - i) >= 0
    ensures Shr(w + Dbl(r, n), i) == Shr(w, i) + Dbl(r, n - i)
    ensures i < n ==> Bit(w + Dbl(r, n), i) == Bit(w, i)
    decreases i
  {
    DblPositive(n);
    DblMonotone(0, r, n);
    if i > 0 {
      ShrOfSum(w / 2, r, i - 1, n - 1);
      assert (w + Dbl(r, n)) / 2 == w / 2 + Dbl(r, n - 1);
    }
  }

  // ---- uECC_vli_testBit ----

  /** Bit `bit` of vli; `w & (1 << k)` is nonzero exactly when bit k of w is set. */
  method TestBit(vli: array<word>, bit: nat) returns (isSet: bool)
    requires bit / 64 < vli.Length
    ensures isSet <==> Bit(Val(vli[..]), bit) == 1
  {
    var q, k := bit / 64, bit % 64;
    isSet := Shr(vli[q], k) % 2 == 1;
    ShrWords(vli[..], q);
    ShrShr(Val(vli[..]), 64 * q, k);
    assert vli[..][q..] == [vli[q]] + vli[..][q + 1..];
    assert vli[..][q..][1..] == vli[..][q + 1..];
    BitOfLowWord(vli[q], Val(vli[..][q + 1..]), k);
  }
}
