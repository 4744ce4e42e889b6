/** Reduction of a 512-bit number modulo the order of the Ed25519 base point. */
module Scalar {
  import opened Arithmetic
  import opened Bits
  import opened Limbs

  /** 2^252 + 27742317777372353535851937790883648493, section 5.1 of RFC 8032. */
  const ORDER: int := 0x1000000000000000000000000000000014def9dea2f79cd65812631a5cf5d3ed

  /** 24 limbs of 21 bits. */
  function Widths(n: nat): seq<nat> {
    seq(n, _ => 21)
  }

  lemma {:induction false} OffsetOfWidths(n: nat, i: nat)
    requires i <= n
    ensures Offset(Widths(n), i) == 21 * i
  {
    if i > 0 {
      assert Widths(n)[1..] == Widths(n - 1);
      OffsetOfWidths(n - 1, i - 1);
    }
  }

  /** x moved up by i limbs. */
  function UpLimbs(x: int, i: nat): int {
    if i == 0 then x else 2097152 * UpLimbs(x, i - 1)
  }

  lemma {:induction false} UpLimbsIsDbl(x: int, i: nat)
    ensures UpLimbs(x, i) == Dbl(x, 21 * i)
  {
    if i > 0 {
      UpLimbsIsDbl(x, i - 1);
      Dbl21(x, 21 * (i - 1));
    }
  }

  lemma {:induction false} UpLimbsUp(x: int, i: nat, j: nat)
    ensures UpLimbs(UpLimbs(x, i), j) == UpLimbs(x, i + j)
  {
    if j > 0 {
      UpLimbsUp(x, i, j - 1);
    }
  }

  lemma {:induction false} UpLimbsLinear(x: int, y: int, j: nat)
    ensures UpLimbs(x + y, j) == UpLimbs(x, j) + UpLimbs(y, j)
    ensures UpLimbs(x - y, j) == UpLimbs(x, j) - UpLimbs(y, j)
    ensures UpLimbs(ORDER * x, j) == ORDER * UpLimbs(x, j)
  {
    if j > 0 {
      UpLimbsLinear(x, y, j - 1);
    }
  }

  // ---- folding a limb: 2^252 is 2^252 - ORDER modulo ORDER ----

  /** The six multiples of x that replace x * 2^252. */
  lemma FoldConstants(x: int)
    ensures UpLimbs(x * 666643, 0) + UpLimbs(x * 470296, 1) + UpLimbs(x * 654183, 2) + UpLimbs(-(x * 997805), 3)
            + UpLimbs(x * 136657, 4) + UpLimbs(-(x * 683901), 5) == UpLimbs(x, 12) - ORDER * x
  {
    FiveUp(x * 666643);
    FiveUp(x * 470296);
    FiveUp(x * 654183);
    FiveUp(-(x * 997805));
    FiveUp(x * 136657);
    FiveUp(-(x * 683901));
    FiveUp(x);
    FiveUp(UpLimbs(x, 5));
    UpLimbsUp(x, 5, 5);
    assert UpLimbs(x, 12) == 2097152 * UpLimbs(x, 11) == 2097152 * (2097152 * UpLimbs(x, 10));
  }

  lemma FiveUp(x: int)
    ensures UpLimbs(x, 1) == 2097152 * x
    ensures UpLimbs(x, 2) == 4398046511104 * x
    ensures UpLimbs(x, 3) == 9223372036854775808 * x
    ensures UpLimbs(x, 4) == 19342813113834066795298816 * x
    ensures UpLimbs(x, 5) == 40564819207303340847894502572032 * x
  {
    assert UpLimbs(x, 1) == 2097152 * UpLimbs(x, 0);
    assert UpLimbs(x, 2) == 2097152 * UpLimbs(x, 1);
    assert UpLimbs(x, 3) == 2097152 * UpLimbs(x, 2);
    assert UpLimbs(x, 4) == 2097152 * UpLimbs(x, 3);
    assert UpLimbs(x, 5) == 2097152 * UpLimbs(x, 4);
  }

  /** The same, k limbs up. */
  lemma FoldAt(x: int, k: nat)
    ensures UpLimbs(x * 666643, k) + UpLimbs(x * 470296, k + 1) + UpLimbs(x * 654183, k + 2)
            + UpLimbs(-(x * 997805), k + 3)
            + UpLimbs(x * 136657, k + 4) + UpLimbs(-(x * 683901), k + 5) == UpLimbs(x, k + 12) - ORDER * UpLimbs(x, k)
  {
    var a, b, c := x * 666643, UpLimbs(x * 470296, 1), UpLimbs(x * 654183, 2);
    var d, e, f := UpLimbs(-(x * 997805), 3), UpLimbs(x * 136657, 4), UpLimbs(-(x * 683901), 5);
    FoldConstants(x);
    UpLimbsUp(x * 470296, 1, k);
    UpLimbsUp(x * 654183, 2, k);
    UpLimbsUp(-(x * 997805), 3, k);
    UpLimbsUp(x * 136657, 4, k);
    UpLimbsUp(-(x * 683901), 5, k);
    UpLimbsUp(x, 12, k);
    UpLimbsLinear(a, b, k);
    UpLimbsLinear(a + b, c, k);
    UpLimbsLinear(a + b + c, d, k);
    UpLimbsLinear(a + b + c + d, e, k);
    UpLimbsLinear(a + b + c + d + e, f, k);
    UpLimbsLinear(UpLimbs(x, 12), ORDER * x, k);
    UpLimbsLinear(x, 0, k);
  }

  lemma UpdateLimb(s: seq<int>, n: nat, i: nat, d: int)
    requires |s| == n && i < n
    ensures Value(s[i := s[i] + d], Widths(n)) == Value(s, Widths(n)) + UpLimbs(d, i)
  {
    ValueUpdate(s, Widths(n), i, d);
    OffsetOfWidths(n, i);
    UpLimbsIsDbl(d, i);
  }

  /** The limbs after limb k + 12 is folded into limbs k to k + 5. */
  function Folded(s: seq<int>, k: nat): seq<int>
    requires k + 12 < |s|
  {
    var x := s[k + 12];
    var c := Plus3(s, k, x * 666643, x * 470296, x * 654183);
    var f := Plus3(c, k + 3, -(x * 997805), x * 136657, -(x * 683901));
    f[k + 12 := f[k + 12] + -x]
  }

  lemma FoldedValue(s: seq<int>, k: nat)
    requires k + 12 < |s|
    ensures Value(Folded(s, k), Widths(|s|)) == Value(s, Widths(|s|)) - ORDER * UpLimbs(s[k + 12], k)
  {
    var n, x := |s|, s[k + 12];
    var c := Plus3(s, k, x * 666643, x * 470296, x * 654183);
    var f := Plus3(c, k + 3, -(x * 997805), x * 136657, -(x * 683901));
    Plus3Value(s, k, x * 666643, x * 470296, x * 654183);
    Plus3Value(c, k + 3, -(x * 997805), x * 136657, -(x * 683901));
    UpdateLimb(f, n, k + 12, -x);
    UpLimbsLinear(0, x, k + 12);
    UpLimbsLinear(0, 0, k + 12);
    FoldAt(x, k);
  }

  /** Three neighbours changed. */
  function Plus3(s: seq<int>, i: nat, d: int, e: int, f: int): seq<int>
    requires i + 2 < |s|
  {
    var a := s[i := s[i] + d];
    var b := a[i + 1 := a[i + 1] + e];
    b[i + 2 := b[i + 2] + f]
  }

  lemma Plus3Value(s: seq<int>, i: nat, d: int, e: int, f: int)
    requires i + 2 < |s|
    ensures Value(Plus3(s, i, d, e, f), Widths(|s|))
            == Value(s, Widths(|s|)) + UpLimbs(d, i) + UpLimbs(e, i + 1) + UpLimbs(f, i + 2)
  {
    var a := s[i := s[i] + d];
    var b := a[i + 1 := a[i + 1] + e];
    UpdateLimb(s, |s|, i, d);
    UpdateLimb(a, |s|, i + 1, e);
    UpdateLimb(b, |s|, i + 2, f);
  }

  /** Folds limb k + 12 into limbs k .. k + 5; every product and sum fits 64 bits. */
  method Fold(s: array<int64>, k: nat, ghost m: int, ghost room: int)
    requires k + 12 < s.Length && Within(s[k + 12], m) && 0 <= m <= 0x100_0000_0000
    requires forall j | k <= j < k + 6 :: Within(s[j], room)
    requires 0 <= room <= 0x1000_0000_0000_0000
    modifies s
    ensures s[k + 12] == 0
    ensures forall j | k <= j < k + 6 :: Within(s[j], room + m * 0x10_0000)
    ensures forall j | 0 <= j < s.Length && j != k + 12 && !(k <= j < k + 6) :: s[j] == old(s[j])
    ensures Value(s[..], Widths(s.Length)) == old(Value(s[..], Widths(s.Length))) - ORDER * UpLimbs(old(s[k + 12]), k)
  {
    ghost var before := s[..];
    AddProducts(s, k, before, m, room);
    FoldProducts(before[k + 12], m);
    FoldedElements(before, s[..], k);
    FoldedValue(before, k);
  }

  /** The six products, added and subtracted in place. */
  method AddProducts(s: array<int64>, k: nat, ghost t: seq<int>, ghost m: int, ghost room: int)
    requires t == s[..]
    requires k + 12 < s.Length && Within(s[k + 12], m) && 0 <= m <= 0x100_0000_0000
    requires forall j | k <= j < k + 6 :: Within(s[j], room)
    requires 0 <= room <= 0x1000_0000_0000_0000
    modifies s
    ensures s[k] == t[k] + t[k + 12] * 666643 && s[k + 1] == t[k + 1] + t[k + 12] * 470296
    ensures s[k + 2] == t[k + 2] + t[k + 12] * 654183 && s[k + 3] == t[k + 3] - t[k + 12] * 997805
    ensures s[k + 4] == t[k + 4] + t[k + 12] * 136657 && s[k + 5] == t[k + 5] - t[k + 12] * 683901
    ensures s[k + 12] == 0
    ensures forall j | 0 <= j < s.Length && j != k + 12 && !(k <= j < k + 6) :: s[j] == old(s[j])
  {
    var p0: int64, p1: int64, p2: int64 := s[k + 12] * 666643, s[k + 12] * 470296, s[k + 12] * 654183;
    var p3: int64, p4: int64, p5: int64 := s[k + 12] * 997805, s[k + 12] * 136657, s[k + 12] * 683901;
    s[k], s[k + 1], s[k + 2] := s[k] + p0, s[k + 1] + p1, s[k + 2] + p2;
    s[k + 3], s[k + 4], s[k + 5] := s[k + 3] - p3, s[k + 4] + p4, s[k + 5] - p5;
    s[k + 12] := 0;
  }

  lemma FoldProducts(x: int, m: int)
    requires Within(x, m)
    ensures Within(x * 666643, m * 0x10_0000) && Within(x * 470296, m * 0x10_0000) && Within(x * 654183, m * 0x10_0000)
    ensures Within(x * 997805, m * 0x10_0000) && Within(x * 136657, m * 0x10_0000) && Within(x * 683901, m * 0x10_0000)
  {
  }

  lemma FoldedElements(s: seq<int>, t: seq<int>, k: nat)
    requires k + 12 < |s| == |t| && t[k + 12] == 0
    requires t[k] == s[k] + s[k + 12] * 666643 && t[k + 1] == s[k + 1] + s[k + 12] * 470296
    requires t[k + 2] == s[k + 2] + s[k + 12] * 654183 && t[k + 3] == s[k + 3] - s[k + 12] * 997805
    requires t[k + 4] == s[k + 4] + s[k + 12] * 136657 && t[k + 5] == s[k + 5] - s[k + 12] * 683901
    requires forall j | 0 <= j < |s| && j != k + 12 && !(k <= j < k + 6) :: t[j] == s[j]
    ensures t == Folded(s, k)
  {
  }

  // ---- carries ----

  /** Moves c * 2^21 from limb i to limb i + 1. */
  method Carry(s: array<int64>, i: nat, c: int64)
    requires i + 1 < s.Length
    requires Within(s[i] - c * 2097152, 0x4000_0000_0000_0000) && Within(s[i + 1] + c, 0x4000_0000_0000_0000)
    requires Within(c, 0x200_0000_0000)
    modifies s
    ensures s[i] == old(s[i]) - c * 2097152 && s[i + 1] == old(s[i + 1]) + c
    ensures forall j | 0 <= j < s.Length && j != i && j != i + 1 :: s[j] == old(s[j])
    ensures Value(s[..], Widths(s.Length)) == old(Value(s[..], Widths(s.Length)))
  {
    ghost var before := s[..];
    s[i + 1] := s[i + 1] + c;
    var shifted: int64 := c * 2097152;
    s[i] := s[i] - shifted;
    Dbl21(c, 0);
    CarryKeepsValue(before, Widths(s.Length), i, c);
    assert s[..] == before[i := before[i] - c * 2097152][i + 1 := before[i + 1] + c];
  }

  /** The floor of (x + half) / 2^21, and what is left of x. */
  lemma FloorBounds(x: int, half: int, m: int)
    requires Within(x, m) && 0 <= half <= 0x10_0000 && 0 <= m <= 0x2000_0000_0000_0000
    ensures Within(Sar(x + half, 21), m / 2097152 + 1)
    ensures m / 2097152 + 1 <= 0x200_0000_0000
    ensures -half <= x - Sar(x + half, 21) * 2097152 < 2097152 - half
  {
    Dbl21(1, 0);
    DblIsProduct(1, 21);
    var p := Pow2(21);
    assert (x + half) / p == (x + half) / 2097152;
  }

  /** carry = (s[i] + (1 << 20)) >> 21: limb i ends within 2^20 of zero. */
  method CarryRound(s: array<int64>, i: nat, ghost m: int)
    requires i + 1 < s.Length && 0 <= m <= 0x2000_0000_0000_0000 && Within(s[i], m)
    requires Within(s[i + 1], 0x2000_0000_0000_0000)
    modifies s
    ensures Within(s[i], 0x10_0000)
    ensures Within(s[i + 1] as int - old(s[i + 1]) as int, m / 2097152 + 1)
    ensures forall j | 0 <= j < s.Length && j != i && j != i + 1 :: s[j] == old(s[j])
    ensures Value(s[..], Widths(s.Length)) == old(Value(s[..], Widths(s.Length)))
  {
    FloorBounds(s[i], 0x10_0000, m);
    var rounded: int64 := s[i] + 0x10_0000;
    var carry: int64 := Sar(rounded, 21);
    Carry(s, i, carry);
  }

  /** carry = s[i] >> 21: limb i ends in [0, 2^21). */
  method CarryFloor(s: array<int64>, i: nat, ghost m: int)
    requires i + 1 < s.Length && 0 <= m <= 0x2000_0000_0000_0000 && Within(s[i], m)
    requires Within(s[i + 1], 0x2000_0000_0000_0000)
    modifies s
    ensures 0 <= s[i] < 2097152
    ensures Within(s[i + 1] as int - old(s[i + 1]) as int, m / 2097152 + 1)
    ensures forall j | 0 <= j < s.Length && j != i && j != i + 1 :: s[j] == old(s[j])
    ensures Value(s[..], Widths(s.Length)) == old(Value(s[..], Widths(s.Length)))
  {
    FloorBounds(s[i], 0, m);
    var carry: int64 := Sar(s[i], 21);
    Carry(s, i, carry);
  }

  // ---- the stages of sc_reduce ----

  /** The limbs above n are zero. */
  ghost predicate ZeroFrom(s: seq<int>, n: nat) {
    forall j | n <= j < |s| :: s[j] == 0
  }

  /** Limbs lo up to hi are within m of zero. */
  ghost predicate AllWithin(s: seq<int>, lo: nat, hi: nat, m: int) {
    hi <= |s| && forall j | lo <= j < hi :: Within(s[j], m)
  }

  /** Limbs lo up to hi fit 21 bits. */
  ghost predicate AllCarried(s: seq<int>, lo: nat, hi: nat) {
    hi <= |s| && forall j | lo <= j < hi :: 0 <= s[j] < 2097152
  }

  ghost predicate Cleared(s: array<int64>, n: nat)
    reads s
  {
    forall j | n <= j < s.Length :: s[j] == 0
  }

  ghost predicate Bounded(s: array<int64>, lo: nat, hi: nat, m: int)
    requires hi <= s.Length
    reads s
  {
    forall j | lo <= j < hi :: Within(s[j], m)
  }

  ghost predicate InDigits(s: array<int64>, lo: nat, hi: nat)
    requires hi <= s.Length
    reads s
  {
    forall j | lo <= j < hi :: 0 <= s[j] < 2097152
  }

  /** Limbs 23 down to 18 are folded into limbs 6 to 16. */
  method FoldUpper(s: array<int64>) returns (ghost q: int)
    requires s.Length == 24 && Bounded(s, 0, 24, 0x2000_0000)
    modifies s
    ensures Cleared(s, 18) && Bounded(s, 6, 17, 0x10_0000_0000_0000)
    ensures Bounded(s, 0, 6, 0x2000_0000) && Within(s[17], 0x2000_0000)
    ensures Value(s[..], Widths(24)) == old(Value(s[..], Widths(24))) - ORDER * q
  {
    Fold(s, 11, 0x2000_0000, 0x2000_0000);
    Fold(s, 10, 0x2000_0000, 0x2_0000_2000_0000);
    Fold(s, 9, 0x2000_0000, 0x4_0000_2000_0000);
    Fold(s, 8, 0x2000_0000, 0x6_0000_2000_0000);
    Fold(s, 7, 0x2000_0000, 0x8_0000_2000_0000);
    Fold(s, 6, 0x2000_0000, 0xa_0000_2000_0000);
    q := UpLimbs(old(s[23]), 11) + UpLimbs(old(s[22]), 10) + UpLimbs(old(s[21]), 9) + UpLimbs(old(s[20]), 8)
         + UpLimbs(old(s[19]), 7) + UpLimbs(old(s[18]), 6);
  }

  /** Limbs 6 to 16 are rounded, the even ones first. */
  method RoundMiddle(s: array<int64>)
    requires s.Length == 24 && Cleared(s, 18) && Bounded(s, 6, 17, 0x10_0000_0000_0000)
    requires Bounded(s, 0, 6, 0x2000_0000) && Within(s[17], 0x2000_0000)
    modifies s
    ensures Cleared(s, 18) && Bounded(s, 0, 18, 0x1_0000_0000)
    ensures Value(s[..], Widths(24)) == old(Value(s[..], Widths(24)))
  {
    CarryRound(s, 6, 0x10_0000_0000_0000);
    CarryRound(s, 8, 0x10_0000_0000_0000);
    CarryRound(s, 10, 0x10_0000_0000_0000);
    CarryRound(s, 12, 0x10_0000_0000_0000);
    CarryRound(s, 14, 0x10_0000_0000_0000);
    CarryRound(s, 16, 0x10_0000_0000_0000);
    CarryRound(s, 7, 0x10_0001_0000_0000);
    CarryRound(s, 9, 0x10_0001_0000_0000);
    CarryRound(s, 11, 0x10_0001_0000_0000);
    CarryRound(s, 13, 0x10_0001_0000_0000);
    CarryRound(s, 15, 0x10_0001_0000_0000);
  }

  /** Limbs 17 down to 12 are folded into limbs 0 to 10. */
  method FoldMiddle(s: array<int64>) returns (ghost q: int)
    requires s.Length == 24 && Cleared(s, 18) && Bounded(s, 0, 18, 0x1_0000_0000)
    modifies s
    ensures Cleared(s, 12) && Bounded(s, 0, 12, 0x80_0000_0000_0000)
    ensures Value(s[..], Widths(24)) == old(Value(s[..], Widths(24))) - ORDER * q
  {
    Fold(s, 5, 0x1_0000_0000, 0x1_0000_0000);
    Fold(s, 4, 0x1_0000_0000, 0x10_0001_0000_0000);
    Fold(s, 3, 0x1_0000_0000, 0x20_0001_0000_0000);
    Fold(s, 2, 0x1_0000_0000, 0x30_0001_0000_0000);
    Fold(s, 1, 0x1_0000_0000, 0x40_0001_0000_0000);
    Fold(s, 0, 0x1_0000_0000, 0x50_0001_0000_0000);
    q := UpLimbs(old(s[17]), 5) + UpLimbs(old(s[16]), 4) + UpLimbs(old(s[15]), 3) + UpLimbs(old(s[14]), 2)
         + UpLimbs(old(s[13]), 1) + UpLimbs(old(s[12]), 0);
  }

  /** Limbs 0 to 11 are rounded, the even ones first; limb 11 ends within 2^20 of zero. */
  method RoundLower(s: array<int64>)
    requires s.Length == 24 && Cleared(s, 12) && Bounded(s, 0, 12, 0x80_0000_0000_0000)
    modifies s
    ensures Cleared(s, 13) && Bounded(s, 0, 13, 0x10_0000_0000) && Within(s[11], 0x10_0000)
    ensures Value(s[..], Widths(24)) == old(Value(s[..], Widths(24)))
  {
    RoundLowerEven(s);
    RoundLowerOdd(s);
  }

  method RoundLowerEven(s: array<int64>)
    requires s.Length == 24 && Cleared(s, 12) && Bounded(s, 0, 12, 0x80_0000_0000_0000)
    modifies s
    ensures Cleared(s, 12) && Bounded(s, 0, 12, 0x81_0000_0000_0000)
    ensures Within(s[0], 0x10_0000) && Within(s[2], 0x10_0000) && Within(s[4], 0x10_0000)
    ensures Within(s[6], 0x10_0000) && Within(s[8], 0x10_0000) && Within(s[10], 0x10_0000)
    ensures Value(s[..], Widths(24)) == old(Value(s[..], Widths(24)))
  {
    CarryRound(s, 0, 0x80_0000_0000_0000);
    CarryRound(s, 2, 0x80_0000_0000_0000);
    CarryRound(s, 4, 0x80_0000_0000_0000);
    CarryRound(s, 6, 0x80_0000_0000_0000);
    CarryRound(s, 8, 0x80_0000_0000_0000);
    CarryRound(s, 10, 0x80_0000_0000_0000);
  }

  method RoundLowerOdd(s: array<int64>)
    requires s.Length == 24 && Cleared(s, 12) && Bounded(s, 0, 12, 0x81_0000_0000_0000)
    requires Within(s[0], 0x10_0000) && Within(s[2], 0x10_0000) && Within(s[4], 0x10_0000)
    requires Within(s[6], 0x10_0000) && Within(s[8], 0x10_0000) && Within(s[10], 0x10_0000)
    modifies s
    ensures Cleared(s, 13) && Bounded(s, 0, 13, 0x10_0000_0000) && Within(s[11], 0x10_0000)
    ensures Value(s[..], Widths(24)) == old(Value(s[..], Widths(24)))
  {
    CarryRound(s, 1, 0x81_0000_0000_0000);
    CarryRound(s, 3, 0x81_0000_0000_0000);
    CarryRound(s, 5, 0x81_0000_0000_0000);
    CarryRound(s, 7, 0x81_0000_0000_0000);
    CarryRound(s, 9, 0x81_0000_0000_0000);
    CarryRound(s, 11, 0x81_0000_0000_0000);
  }

  /** The chain of floor carries through limbs 0 to 10. */
  method FloorChain(s: array<int64>)
    requires s.Length == 24 && Bounded(s, 0, 12, 0x400_0000_0000_0000)
    modifies s
    ensures InDigits(s, 0, 11)
    ensures Within(s[11] as int - old(s[11]) as int, 0x4000_0000_0000)
    ensures forall j | 12 <= j < 24 :: s[j] == old(s[j])
    ensures Value(s[..], Widths(24)) == old(Value(s[..], Widths(24)))
  {
    FloorLower(s);
    CarryFloor(s, 6, 0x500_0000_0000_0000);
    CarryFloor(s, 7, 0x500_0000_0000_0000);
    CarryFloor(s, 8, 0x500_0000_0000_0000);
    CarryFloor(s, 9, 0x500_0000_0000_0000);
    CarryFloor(s, 10, 0x500_0000_0000_0000);
  }

  method FloorLower(s: array<int64>)
    requires s.Length == 24 && Bounded(s, 0, 7, 0x400_0000_0000_0000)
    modifies s
    ensures InDigits(s, 0, 6) && Within(s[6], 0x500_0000_0000_0000)
    ensures forall j | 7 <= j < 24 :: s[j] == old(s[j])
    ensures Value(s[..], Widths(24)) == old(Value(s[..], Widths(24)))
  {
    CarryFloor(s, 0, 0x500_0000_0000_0000);
    CarryFloor(s, 1, 0x500_0000_0000_0000);
    CarryFloor(s, 2, 0x500_0000_0000_0000);
    CarryFloor(s, 3, 0x500_0000_0000_0000);
    CarryFloor(s, 4, 0x500_0000_0000_0000);
    CarryFloor(s, 5, 0x500_0000_0000_0000);
  }

  // ---- the size of what is left ----

  lemma {:induction false} ValueZeros(s: seq<int>, n: nat)
    requires |s| == n && ZeroFrom(s, 0)
    ensures Value(s, Widths(n)) == 0
  {
    if n > 0 {
      assert Widths(n)[1..] == Widths(n - 1);
      ValueZeros(s[1..], n - 1);
      DblZero(21);
    }
  }

  lemma ValueStep(s: seq<int>, m: nat)
    requires |s| == 24 && m < 24
    ensures Value(s[m..], Widths(24 - m)) == s[m] + 2097152 * Value(s[m + 1..], Widths(23 - m))
  {
    assert s[m..][1..] == s[m + 1..] && Widths(24 - m)[1..] == Widths(23 - m);
    Dbl21(Value(s[m + 1..], Widths(23 - m)), 0);
  }

  /** Limbs 6 to 12 written out. */
  function Upper(s: seq<int>): int
    requires |s| == 24
  {
    s[6] + 2097152 * (s[7] + 2097152 * (s[8] + 2097152 * (
      s[9] + 2097152 * (s[10] + 2097152 * (s[11] + 2097152 * s[12])))))
  }

  /** The first 13 limbs written out; the others are zero. */
  function Horner(s: seq<int>): int
    requires |s| == 24
  {
    s[0] + 2097152 * (s[1] + 2097152 * (s[2] + 2097152 * (
      s[3] + 2097152 * (s[4] + 2097152 * (s[5] + 2097152 * Upper(s))))))
  }

  lemma ValueIsUpper(s: seq<int>)
    requires |s| == 24 && ZeroFrom(s, 13)
    ensures Value(s[6..], Widths(18)) == Upper(s)
  {
    ValueStep(s, 6);
    ValueStep(s, 7);
    ValueStep(s, 8);
    ValueIsTop(s);
  }

  lemma ValueIsTop(s: seq<int>)
    requires |s| == 24 && ZeroFrom(s, 13)
    ensures Value(s[9..], Widths(15)) == s[9] + 2097152 * (s[10] + 2097152 * (s[11] + 2097152 * s[12]))
  {
    ValueStep(s, 9);
    ValueStep(s, 10);
    ValueStep(s, 11);
    ValueStep(s, 12);
    ValueZeros(s[13..], 11);
  }

  lemma ValueIsHorner(s: seq<int>)
    requires |s| == 24 && ZeroFrom(s, 13)
    ensures Value(s, Widths(24)) == Horner(s)
  {
    assert s[0..] == s;
    ValueStep(s, 0);
    ValueStep(s, 1);
    ValueStep(s, 2);
    ValueStep(s, 3);
    ValueStep(s, 4);
    ValueStep(s, 5);
    ValueIsUpper(s);
  }

  const TWO252: int := 0x1000000000000000000000000000000000000000000000000000000000000000

  /** Limb 11 near zero keeps the number below 2^252 in size. */
  lemma SmallValue(s: seq<int>)
    requires |s| == 24 && s[12] == 0
    requires AllWithin(s, 0, 6, 0x400_0000_0000_0000) && AllWithin(s, 6, 11, 0x10_0000_0000) && Within(s[11], 0x10_0000)
    ensures -TWO252 < Horner(s) < TWO252
  {
  }

  /** So the carry out of limb 11 is 0 or -1. */
  lemma LastCarry(s: seq<int>)
    requires |s| == 24 && AllCarried(s, 0, 12) && -TWO252 < Horner(s) < TWO252
    ensures s[12] == 0 || s[12] == -1
    ensures s[12] == 0 <==> Horner(s) >= 0
  {
  }

  /** The fold of limb 12 and the chain after it leave 0 or -1 in limb 12. */
  method FoldAndChain(s: array<int64>) returns (ghost q: int)
    requires s.Length == 24 && Cleared(s, 13) && Bounded(s, 0, 13, 0x10_0000_0000) && Within(s[11], 0x10_0000)
    modifies s
    ensures Cleared(s, 13) && InDigits(s, 0, 12) && (s[12] == 0 || s[12] == -1)
    ensures Value(s[..], Widths(24)) == old(Value(s[..], Widths(24))) - ORDER * q
    ensures -TWO252 < Value(s[..], Widths(24)) < TWO252
    ensures s[12] == 0 <==> Value(s[..], Widths(24)) >= 0
  {
    q := FoldToSmall(s);
    ChainToLast(s);
  }

  method FoldToSmall(s: array<int64>) returns (ghost q: int)
    requires s.Length == 24 && Cleared(s, 13) && Bounded(s, 0, 13, 0x10_0000_0000) && Within(s[11], 0x10_0000)
    modifies s
    ensures Cleared(s, 12) && Bounded(s, 0, 12, 0x400_0000_0000_0000) && Within(s[11], 0x10_0000)
    ensures Value(s[..], Widths(24)) == old(Value(s[..], Widths(24))) - ORDER * q
    ensures -TWO252 < Value(s[..], Widths(24)) < TWO252
  {
    q := UpLimbs(s[12], 0);
    Fold(s, 0, 0x10_0000_0000, 0x10_0000_0000);
    ValueIsHorner(s[..]);
    SmallValue(s[..]);
  }

  method ChainToLast(s: array<int64>)
    requires s.Length == 24 && Cleared(s, 12) && Bounded(s, 0, 12, 0x400_0000_0000_0000) && Within(s[11], 0x10_0000)
    requires -TWO252 < Value(s[..], Widths(24)) < TWO252
    modifies s
    ensures Cleared(s, 13) && InDigits(s, 0, 12) && (s[12] == 0 || s[12] == -1)
    ensures Value(s[..], Widths(24)) == old(Value(s[..], Widths(24)))
    ensures s[12] == 0 <==> Value(s[..], Widths(24)) >= 0
  {
    FloorChain(s);
    CarryFloor(s, 11, 0x4000_0010_0000);
    ValueIsHorner(s[..]);
    LastCarry(s[..]);
  }

  /** The two last folds and the chains after them. */
  method FinishReduction(s: array<int64>) returns (ghost q: int)
    requires s.Length == 24 && Cleared(s, 13) && Bounded(s, 0, 13, 0x10_0000_0000) && Within(s[11], 0x10_0000)
    modifies s
    ensures Cleared(s, 12) && InDigits(s, 0, 11) && 0 <= s[11] <= 2097152
    ensures Value(s[..], Widths(24)) == old(Value(s[..], Widths(24))) - ORDER * q
    ensures 0 <= Value(s[..], Widths(24)) < ORDER
  {
    q := FoldAndChain(s);
    q := q + UpLimbs(s[12], 0);
    Fold(s, 0, 1, 2097152);
    FloorChain(s);
    ValueIsHorner(s[..]);
    TopLimb(s[..]);
  }

  lemma TopLimb(s: seq<int>)
    requires |s| == 24 && AllCarried(s, 0, 11) && s[12] == 0 && 0 <= Horner(s) < ORDER
    ensures 0 <= s[11] <= 2097152
  {
  }

  /** The arithmetic of sc_reduce, from 24 limbs to the residue in the lowest 12. */
  method ReduceLimbs(s: array<int64>)
    requires s.Length == 24 && Bounded(s, 0, 24, 0x2000_0000) && Value(s[..], Widths(24)) >= 0
    modifies s
    ensures Cleared(s, 12) && InDigits(s, 0, 11) && 0 <= s[11] <= 2097152
    ensures Value(s[..], Widths(24)) == old(Value(s[..], Widths(24))) % ORDER
  {
    ghost var x := Value(s[..], Widths(24));
    ghost var q := FoldUpper(s);
    RoundMiddle(s);
    ghost var q1 := FoldMiddle(s);
    RoundLower(s);
    ghost var q2 := FinishReduction(s);
    Distribute(q, q1, ORDER);
    Distribute(q + q1, q2, ORDER);
    DivModUnique(x, ORDER, q + q1 + q2, Value(s[..], Widths(24)));
  }

  // ---- bytes to limbs ----

  /** 2097151 & x */
  function Mask(x: int): int {
    x % 2097152
  }

  /** Bits beyond the loaded bytes do not reach the masked limb. */
  lemma {:induction false} LowOfShr(x: nat, y: nat, r: nat, n: nat, m: nat)
    requires r + m <= n
    ensures Dbl(y, n) >= 0 && Low(Shr(x + Dbl(y, n), r), m) == Low(Shr(x, r), m)
  {
    DblZero(n);
    DblMonotone(0, y, n);
    ShrOfSum(x, y, r, n);
    DblZero(n - r);
    DblMonotone(0, y, n - r);
    LowOfSum(Shr(x, r), y, n - r, m);
  }

  lemma {:induction false} LowOfSum(x: nat, y: nat, n: nat, m: nat)
    requires m <= n && Dbl(y, n) >= 0
    ensures Low(x + Dbl(y, n), m) == Low(x, m)
  {
    if m > 0 {
      DblMonotone(0, y, n - 1);
      DblZero(n - 1);
      assert (x + Dbl(y, n)) / 2 == x / 2 + Dbl(y, n - 1);
      LowOfSum(x / 2, y, n - 1, m - 1);
    }
  }

  lemma {:induction false} LowIsMod(x: nat, n: nat)
    ensures Low(x, n) == x % Pow2(n)
  {
    LowAndShr(x, n);
    LowBound(x, n);
    DblIsProduct(1, n);
    DblIsProduct(Shr(x, n), n);
    DivModUnique(x, Pow2(n), Shr(x, n), Low(x, n));
  }

  /** Limb i of the number x. */
  function LimbOf(x: nat, i: nat): nat {
    Low(Shr(x, 21 * i), 21)
  }

  /** A masked load is a limb of the number. */
  lemma Masked3(s: seq<byte>, i: nat, q: nat, r: nat)
    requires q + 3 <= |s| && r <= 3 && 8 * q + r == 21 * i
    ensures Mask(Sar(Load3(s, q), r)) == LimbOf(Bytes(s), i)
  {
    Load3Prefix(s, q);
    LimbAt(s, i, q, r, Load3(s, q), Bytes(s[q + 3..]), 24);
  }

  lemma Masked4(s: seq<byte>, i: nat, q: nat, r: nat)
    requires q + 4 <= |s| && r <= 11 && 8 * q + r == 21 * i
    ensures Mask(Sar(Load4(s, q), r)) == LimbOf(Bytes(s), i)
  {
    Load4Prefix(s, q);
    LimbAt(s, i, q, r, Load4(s, q), Bytes(s[q + 4..]), 32);
  }

  lemma LimbAt(s: seq<byte>, i: nat, q: nat, r: nat, x: nat, y: nat, n: nat)
    requires q <= |s| && 8 * q + r == 21 * i && r + 21 <= n
    requires Bytes(s[q..]) == x + Dbl(y, n)
    ensures Mask(Sar(x, r)) == LimbOf(Bytes(s), i)
  {
    // a variable, because the verifier unrolls a recursive function that is applied to a literal
    var m: nat :| m == 21;
    ShrBytes(s, q);
    MaskedLimb(Bytes(s), i, 8 * q, r, x, y, n, m);
  }

  lemma MaskedLimb(b: nat, i: nat, o: nat, r: nat, x: nat, y: nat, n: nat, m: nat)
    requires m == 21 && o + r == 21 * i && r + m <= n
    requires Shr(b, o) == x + Dbl(y, n)
    ensures Mask(Sar(x, r)) == Low(Shr(b, 21 * i), m)
  {
    ShrShr(b, o, r);
    LowOfShr(x, y, r, n, m);
    MaskIsLow(x, r, m);
  }

  lemma MaskIsLow(x: nat, r: nat, m: nat)
    requires m == 21
    ensures Mask(Sar(x, r)) == Low(Shr(x, r), m)
  {
    ShrIsSar(x, r);
    LowIsMod(Shr(x, r), m);
    Dbl21(1, 0);
    DblIsProduct(1, m);
  }

  // ---- the loads and stores of sc_reduce ----

  /** The initial value of limb i. */
  function LoadedLimb(s: seq<byte>, i: nat): int
    requires |s| == 64 && i < 24
  {
    match i
    case 0 => Mask(Sar(Load3(s, 0), 0))
    case 1 => Mask(Sar(Load4(s, 2), 5))
    case 2 => Mask(Sar(Load3(s, 5), 2))
    case 3 => Mask(Sar(Load4(s, 7), 7))
    case 4 => Mask(Sar(Load4(s, 10), 4))
    case 5 => Mask(Sar(Load3(s, 13), 1))
    case 6 => Mask(Sar(Load4(s, 15), 6))
    case 7 => Mask(Sar(Load3(s, 18), 3))
    case 8 => Mask(Sar(Load3(s, 21), 0))
    case 9 => Mask(Sar(Load4(s, 23), 5))
    case 10 => Mask(Sar(Load3(s, 26), 2))
    case 11 => Mask(Sar(Load4(s, 28), 7))
    case 12 => Mask(Sar(Load4(s, 31), 4))
    case 13 => Mask(Sar(Load3(s, 34), 1))
    case 14 => Mask(Sar(Load4(s, 36), 6))
    case 15 => Mask(Sar(Load3(s, 39), 3))
    case 16 => Mask(Sar(Load3(s, 42), 0))
    case 17 => Mask(Sar(Load4(s, 44), 5))
    case 18 => Mask(Sar(Load3(s, 47), 2))
    case 19 => Mask(Sar(Load4(s, 49), 7))
    case 20 => Mask(Sar(Load4(s, 52), 4))
    case 21 => Mask(Sar(Load3(s, 55), 1))
    case 22 => Mask(Sar(Load4(s, 57), 6))
    case _ => Sar(Load4(s, 60), 3)
  }

  /** The masked loads cut the 64 bytes into limbs of 21 bits. */
  lemma LoadedIsLimb(s: seq<byte>, i: nat)
    requires |s| == 64 && i < 23
    ensures LoadedLimb(s, i) == LimbOf(Bytes(s), i)
  {
    match i
    case 0 => Masked3(s, 0, 0, 0);
    case 1 => Masked4(s, 1, 2, 5);
    case 2 => Masked3(s, 2, 5, 2);
    case 3 => Masked4(s, 3, 7, 7);
    case 4 => Masked4(s, 4, 10, 4);
    case 5 => Masked3(s, 5, 13, 1);
    case 6 => Masked4(s, 6, 15, 6);
    case 7 => Masked3(s, 7, 18, 3);
    case 8 => Masked3(s, 8, 21, 0);
    case 9 => Masked4(s, 9, 23, 5);
    case 10 => Masked3(s, 10, 26, 2);
    case 11 => Masked4(s, 11, 28, 7);
    case 12 => Masked4(s, 12, 31, 4);
    case 13 => Masked3(s, 13, 34, 1);
    case 14 => Masked4(s, 14, 36, 6);
    case 15 => Masked3(s, 15, 39, 3);
    case 16 => Masked3(s, 16, 42, 0);
    case 17 => Masked4(s, 17, 44, 5);
    case 18 => Masked3(s, 18, 47, 2);
    case 19 => Masked4(s, 19, 49, 7);
    case 20 => Masked4(s, 20, 52, 4);
    case 21 => Masked3(s, 21, 55, 1);
    case _ => Masked4(s, 22, 57, 6);
  }

  /** The limb and the shift that byte j starts from. */
  function Slot(j: nat): (p: (nat, nat))
    requires j < 32
    ensures p.0 < 12 && 21 * p.0 + p.1 == 8 * j && p.1 <= 21
  {
    match j
    case 0 => (0, 0)
    case 1 => (0, 8)
    case 2 => (0, 16)
    case 3 => (1, 3)
    case 4 => (1, 11)
    case 5 => (1, 19)
    case 6 => (2, 6)
    case 7 => (2, 14)
    case 8 => (3, 1)
    case 9 => (3, 9)
    case 10 => (3, 17)
    case 11 => (4, 4)
    case 12 => (4, 12)
    case 13 => (4, 20)
    case 14 => (5, 7)
    case 15 => (5, 15)
    case 16 => (6, 2)
    case 17 => (6, 10)
    case 18 => (6, 18)
    case 19 => (7, 5)
    case 20 => (7, 13)
    case 21 => (8, 0)
    case 22 => (8, 8)
    case 23 => (8, 16)
    case 24 => (9, 3)
    case 25 => (9, 11)
    case 26 => (9, 19)
    case 27 => (10, 6)
    case 28 => (10, 14)
    case 29 => (11, 1)
    case 30 => (11, 9)
    case _ => (11, 17)
  }

  /** Byte j of the result, from one limb or from two neighbours. */
  function StoredByte(s: seq<int>, j: nat): int
    requires |s| == 12 && j < 32 && Carried(s, Widths(12))
  {
    ByteFrom(s, Widths(12), Slot(j).0, Slot(j).1)
  }

  /** The stored bytes are the bytes of the number. */
  lemma StoredIsByte(s: seq<int>, j: nat)
    requires |s| == 12 && j < 32 && Carried(s, Widths(12))
    ensures Value(s, Widths(12)) >= 0 && StoredByte(s, j) == Shr(Value(s, Widths(12)), 8 * j) % 256
  {
    ByteAt(s, Slot(j).0, Slot(j).1);
  }

  /** The byte at bit a of limb m. */
  lemma ByteAt(s: seq<int>, m: nat, a: nat)
    requires |s| == 12 && Carried(s, Widths(12)) && m < 12 && a <= 21
    ensures Value(s, Widths(12)) >= 0 && ByteFrom(s, Widths(12), m, a) == Shr(Value(s, Widths(12)), 21 * m + a) % 256
  {
    OffsetOfWidths(12, m);
    ByteFromIs(s, Widths(12), m, a);
  }

  /** Limbs of 21 bits, the last one keeping all the rest, make up the number. */
  lemma {:induction false} LimbsMakeNumber(s: seq<int>, x: nat, n: nat)
    requires |s| == n > 0 && s[n - 1] == Shr(x, 21 * (n - 1))
    requires forall i | 0 <= i < n - 1 :: s[i] == LimbOf(x, i)
    ensures Value(s, Widths(n)) == x
  {
    assert Widths(n)[1..] == Widths(n - 1);
    if n == 1 {
      DblZero(21);
    } else {
      // a variable, because the verifier unrolls a recursive function that is applied to a literal
      var k: nat :| k == 21;
      var y := Shr(x, k);
      forall i | 0 <= i < n - 2
        ensures s[1..][i] == LimbOf(y, i)
      {
        ShrShr(x, k, 21 * i);
        assert 21 * (i + 1) == k + 21 * i;
      }
      ShrShr(x, k, 21 * (n - 2));
      LimbsMakeNumber(s[1..], y, n - 1);
      LowAndShr(x, k);
    }
  }

  /** The 24 limbs of the 64 bytes. */
  method LoadLimbs(s: array<byte>) returns (limbs: array<int64>)
    requires s.Length == 64
    ensures fresh(limbs) && limbs.Length == 24 && Bounded(limbs, 0, 24, 0x2000_0000)
    ensures Value(limbs[..], Widths(24)) == Bytes(s[..])
  {
    ghost var t := s[..];
    var bytes := s[..];
    LastLimb(t);
    forall i | 0 <= i < 23
      ensures LoadedLimb(t, i) == LimbOf(Bytes(t), i) && 0 <= LoadedLimb(t, i) < 2097152
    {
      LoadedIsLimb(t, i);
      LimbBound(Bytes(t), i);
    }
    limbs := new int64[24] (i requires 0 <= i < 24 => LoadedLimb(bytes, i));
    LimbsMakeNumber(limbs[..], Bytes(t), 24);
  }

  lemma LimbBound(x: nat, i: nat)
    ensures LimbOf(x, i) < 2097152
  {
    LowBound(Shr(x, 21 * i), 21);
    Dbl21(1, 0);
  }

  lemma LastLimb(s: seq<byte>)
    requires |s| == 64
    ensures LoadedLimb(s, 23) == Shr(Bytes(s), 21 * 23) && 0 <= LoadedLimb(s, 23) < 0x2000_0000
  {
    // a variable, because the verifier unrolls a recursive function that is applied to a literal
    var r: nat :| r == 3;
    LastFour(s);
    LastShift(Bytes(s), 480, Load4(s, 60), r);
  }

  lemma LastShift(b: nat, o: nat, x: nat, r: nat)
    requires r == 3 && Shr(b, o) == x < 0x1_0000_0000
    ensures Sar(x, r) == Shr(b, o + r) && 0 <= Sar(x, r) < 0x2000_0000
  {
    ShrShr(b, o, r);
    ShrIsSar(x, r);
    assert Pow2(r) == 8;
  }

  lemma LastFour(s: seq<byte>)
    requires |s| == 64
    ensures Shr(Bytes(s), 480) == Load4(s, 60) < 0x1_0000_0000
  {
    ShrBytes(s, 60);
    Load4Prefix(s, 60);
    DblZero(32);
  }

  /** s[0..32] := s mod ORDER; the other bytes stay. */
  method ScReduce(s: array<byte>)
    requires s.Length == 64
    modifies s
    ensures Bytes(s[..32]) == old(Bytes(s[..])) % ORDER
    ensures s[32..] == old(s[32..])
    ensures s[31] <= 31
  {
    var limbs := LoadLimbs(s);
    ReduceLimbs(limbs);
    ghost var x := Value(limbs[..], Widths(24));
    var low := limbs[..12];
    LowLimbs(limbs[..]);
    forall j | 0 <= j < 32
      ensures 0 <= StoredByte(low, j) < 256 && StoredByte(low, j) == Shr(x, 8 * j) % 256
    {
      StoredIsByte(low, j);
    }
    forall j | 0 <= j < 32 {
      s[j] := StoredByte(low, j);
    }
    Dbl256();
    BytesOf(s[..32], x);
    TopByte(s[..32]);
  }

  lemma {:induction false} ValueTake(s: seq<int>, m: nat, n: nat)
    requires |s| == n && m <= n && ZeroFrom(s, m)
    ensures Value(s[..m], Widths(m)) == Value(s, Widths(n))
  {
    if m == 0 {
      ValueZeros(s, n);
    } else {
      assert Widths(n)[1..] == Widths(n - 1) && Widths(m)[1..] == Widths(m - 1);
      assert s[..m][1..] == s[1..][..m - 1];
      ValueTake(s[1..], m - 1, n - 1);
    }
  }

  /** The lowest 12 limbs hold the whole residue, ready to be stored. */
  lemma LowLimbs(s: seq<int>)
    requires |s| == 24 && ZeroFrom(s, 12) && AllCarried(s, 0, 11) && s[11] >= 0
    ensures Carried(s[..12], Widths(12)) && Value(s[..12], Widths(12)) == Value(s, Widths(24))
  {
    ValueTake(s, 12, 24);
    LowCarried(s[..12]);
  }

  lemma LowCarried(s: seq<int>)
    requires |s| == 12 && (forall i | 0 <= i < 11 :: 0 <= s[i] < 2097152) && s[11] >= 0
    ensures Carried(s, Widths(12))
  {
    Dbl21(1, 0);
    DblIsProduct(1, 21);
  }

  /** A residue modulo the order leaves the top three bits clear. */
  lemma TopByte(s: seq<byte>)
    requires |s| == 32 && Bytes(s) < ORDER
    ensures s[31] <= 31
  {
    Dbl256();
    assert s == s[..31] + [s[31]];
    BytesAppend(s[..31], [s[31]]);
    assert [s[31]][1..] == [];
    DblIsProduct(s[31], 248);
    DblIsProduct(1, 248);
  }
}
