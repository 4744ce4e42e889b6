/** The canonical byte form of a field element: 32 bytes, little endian, below 2^255 - 19. */
module FieldBytes {
  import opened Arithmetic
  import opened Bits
  import opened Limbs
  import opened Field

  /** 2^255 */
  const TWO255: int := 0x8000000000000000000000000000000000000000000000000000000000000000

  // ---- fe_frombytes ----

  /** The initial value of limb i: bytes of s shifted to the limb's own position. */
  function Loaded(s: seq<byte>, i: nat): int
    requires |s| == 32 && i < 10
  {
    match i
    case 0 => Load4(s, 0)
    case 1 => Load3(s, 4) * 0x40
    case 2 => Load3(s, 7) * 0x20
    case 3 => Load3(s, 10) * 8
    case 4 => Load3(s, 13) * 4
    case 5 => Load4(s, 16)
    case 6 => Load3(s, 20) * 0x80
    case 7 => Load3(s, 23) * 0x20
    case 8 => Load3(s, 26) * 0x10
    case _ => Load3(s, 29) % 0x80_0000 * 4
  }

  function LoadedLimbs(s: seq<byte>): seq<int>
    requires |s| == 32
  {
    seq(10, i requires 0 <= i < 10 => Loaded(s, i))
  }

  /** The loads of the lower half end to end are the number of its bytes. */
  lemma LowerLoads(s: seq<byte>)
    requires |s| == 32
    ensures Bytes(s) == Load4(s, 0)
            + 0x1_0000_0000 * (Load3(s, 4) + 0x100_0000 * (Load3(s, 7) + 0x100_0000 * (Load3(s, 10)
                        + 0x100_0000 * (Load3(s, 13) + 0x100_0000 * Bytes(s[16..])))))
  {
    assert s[0..] == s;
    Next4(s, 0);
    Next3(s, 4);
    MiddleLoads(s);
  }

  lemma MiddleLoads(s: seq<byte>)
    requires |s| == 32
    ensures Bytes(s[7..]) == Load3(s, 7)
            + 0x100_0000 * (Load3(s, 10) + 0x100_0000 * (Load3(s, 13) + 0x100_0000 * Bytes(s[16..])))
  {
    Next3(s, 7);
    Next3(s, 10);
    Next3(s, 13);
  }

  lemma UpperLoads(s: seq<byte>)
    requires |s| == 32
    ensures Bytes(s[16..]) == Load4(s, 16) + 0x1_0000_0000 * (Load3(s, 20) + 0x100_0000 * (Load3(s, 23)
                              + 0x100_0000 * (Load3(s, 26) + 0x100_0000 * Load3(s, 29))))
  {
    Next4(s, 16);
    Next3(s, 20);
    Next3(s, 23);
    Next3(s, 26);
    Next3(s, 29);
    assert s[32..] == [];
  }

  /** Loads a to j, shifted to the positions of the limbs, are the number they make end to end. */
  lemma Placed(x: int, y: int, a: int, b: int, c: int, d: int, e: int, f: int, g: int, h: int, i: int, j: int, t: int)
    requires x == a + 0x1_0000_0000 * (b + 0x100_0000 * (c + 0x100_0000 * (d + 0x100_0000 * (e + 0x100_0000 * y))))
    requires y == f + 0x1_0000_0000 * (g + 0x100_0000 * (h + 0x100_0000 * (i + 0x100_0000 * (j + 0x80_0000 * t))))
    ensures Num10(a, b * 0x40, c * 0x20, d * 8, e * 4, f, g * 0x80, h * 0x20, i * 0x10, j * 4) == x - TWO255 * t
  {
  }

  /** The limbs hold the 32 bytes without their top bit. */
  lemma LoadedNumber(s: seq<byte>)
    requires |s| == 32
    ensures Num(LoadedLimbs(s)) == Bytes(s) - TWO255 * (s[31] as int / 128)
    ensures Num(LoadedLimbs(s)) == Bytes(s) % TWO255
  {
    LowerLoads(s);
    UpperLoads(s);
    TopBit(s);
    Placed(Bytes(s), Bytes(s[16..]), Load4(s, 0), Load3(s, 4), Load3(s, 7), Load3(s, 10), Load3(s, 13), Load4(s, 16),
           Load3(s, 20), Load3(s, 23), Load3(s, 26), Load3(s, 29) % 0x80_0000, s[31] as int / 128);
    LoadedRange(s);
    DivModUnique(Bytes(s), TWO255, s[31] as int / 128, Num(LoadedLimbs(s)));
  }

  /** Clearing the top bit of the last three bytes. */
  lemma TopBit(s: seq<byte>)
    requires |s| == 32
    ensures Load3(s, 29) == Load3(s, 29) % 0x80_0000 + 0x80_0000 * (s[31] as int / 128)
  {
  }

  lemma LoadedRange(s: seq<byte>)
    requires |s| == 32
    ensures 0 <= Num(LoadedLimbs(s)) < TWO255
  {
    forall i | 0 <= i < 10
      ensures 0 <= LoadedLimbs(s)[i]
    {
    }
  }

  /** h := the field element the 32 bytes stand for; their top bit is ignored. */
  method FeFromBytes(h: array<int32>, s: array<byte>)
    requires h.Length == 10 && s.Length == 32
    modifies h
    ensures Num(h[..]) % P == (Bytes(s[..]) % TWO255) % P
    ensures LimbsWithin(h[..], TIGHT_EVEN, TIGHT_ODD)
  {
    var bytes := s[..];
    var t := new int64[10] (i requires 0 <= i < 10 => Loaded(bytes, i));
    assert t[..] == LoadedLimbs(bytes);
    LoadedNumber(bytes);
    ghost var q := OddCarries(t);
    EvenCarries(t);
    SameResidue(Bytes(bytes) % TWO255, Num(t[..]), q);
    Store(h, t);
  }

  predicate Inside(t: array<int64>, even: int, odd: int)
    requires t.Length == 10
    reads t
  {
    Within(t[0], even) && Within(t[1], odd) && Within(t[2], even) && Within(t[3], odd) && Within(t[4], even)
    && Within(t[5], odd) && Within(t[6], even) && Within(t[7], odd) && Within(t[8], even) && Within(t[9], odd)
  }

  method OddCarries(t: array<int64>) returns (ghost q: int)
    requires t.Length == 10 && Inside(t, 0x1_0000_0000, 0x1_0000_0000)
    modifies t
    ensures Num(t[..]) == old(Num(t[..])) - P * q
    ensures Inside(t, 0x2_0000_0000, 0x100_0000)
  {
    RoundedNum(t[..], 9);
    q := CarryOf(t[9], 9);
    Round(t, 9, 0x1_0000_0000);
    OtherOddCarries(t);
  }

  method OtherOddCarries(t: array<int64>)
    requires t.Length == 10 && Within(t[9], 0x100_0000)
    requires Within(t[0], 0x2_0000_0000) && Within(t[1], 0x1_0000_0000) && Within(t[2], 0x1_0000_0000)
    requires Within(t[3], 0x1_0000_0000) && Within(t[4], 0x1_0000_0000) && Within(t[5], 0x1_0000_0000)
    requires Within(t[6], 0x1_0000_0000) && Within(t[7], 0x1_0000_0000) && Within(t[8], 0x1_0000_0000)
    modifies t
    ensures Num(t[..]) == old(Num(t[..]))
    ensures Inside(t, 0x2_0000_0000, 0x100_0000)
  {
    FourRounds(t[..], 1, 3, 5, 7);
    Round(t, 1, 0x1_0000_0000);
    Round(t, 3, 0x1_0000_0000);
    Round(t, 5, 0x1_0000_0000);
    Round(t, 7, 0x1_0000_0000);
  }

  method EvenCarries(t: array<int64>)
    requires t.Length == 10 && Inside(t, 0x2_0000_0000, 0x100_0000)
    modifies t
    ensures Num(t[..]) == old(Num(t[..]))
    ensures LimbsWithin(t[..], TIGHT_EVEN, TIGHT_ODD)
  {
    ghost var s := t[..];
    RoundedNum(s, 0);
    FourRounds(Rounded(s, 0), 2, 4, 6, 8);
    LowerEvenCarries(t);
    UpperEvenCarries(t);
    InsideLimbs(t);
  }

  method LowerEvenCarries(t: array<int64>)
    requires t.Length == 10 && Inside(t, 0x2_0000_0000, 0x100_0000)
    modifies t
    ensures t[..] == Rounded(Rounded(Rounded(old(t[..]), 0), 2), 4)
    ensures Within(t[0], 0x200_0000) && Within(t[2], 0x200_0000) && Within(t[4], 0x200_0000)
    ensures Within(t[1], 0x100_0100) && Within(t[3], 0x100_0100) && Within(t[5], 0x100_0100)
    ensures t[6] == old(t[6]) && t[7] == old(t[7]) && t[8] == old(t[8]) && t[9] == old(t[9])
  {
    Round(t, 0, 0x2_0000_0000);
    Round(t, 2, 0x2_0000_0000);
    Round(t, 4, 0x2_0000_0000);
  }

  method UpperEvenCarries(t: array<int64>)
    requires t.Length == 10 && Within(t[6], 0x2_0000_0000) && Within(t[7], 0x100_0000)
    requires Within(t[8], 0x2_0000_0000) && Within(t[9], 0x100_0000)
    modifies t
    ensures t[..] == Rounded(Rounded(old(t[..]), 6), 8)
    ensures Within(t[6], 0x200_0000) && Within(t[7], 0x100_0100) && Within(t[8], 0x200_0000) && Within(t[9], 0x100_0100)
    ensures forall j | 0 <= j < 6 :: t[j] == old(t[j])
  {
    Round(t, 6, 0x2_0000_0000);
    Round(t, 8, 0x2_0000_0000);
  }

  lemma InsideLimbs(t: array<int64>)
    requires t.Length == 10 && Inside(t, 0x200_0000, 0x100_0100)
    ensures LimbsWithin(t[..], TIGHT_EVEN, TIGHT_ODD)
  {
  }

  // ---- fe_tobytes ----

  /** The bounds fe_tobytes states: 1.1 * 2^26 and 1.1 * 2^25. */
  const FREEZE_EVEN: int := 73819750
  const FREEZE_ODD: int := 36909875

  /** x >> width of limb i. */
  function FloorOf(x: int, i: nat): int {
    if i % 2 == 0 then x / 0x400_0000 else x / 0x200_0000
  }

  /** The quotient estimate before limb i is taken in; Estimate(s, 10) is the quotient. */
  function Estimate(s: seq<int>, i: nat): int
    requires |s| == 10 && i <= 10
  {
    if i == 0 then (19 * s[9] + 0x100_0000) / 0x200_0000 else FloorOf(s[i - 1] + Estimate(s, i - 1), i - 1)
  }

  /** What the step for limb i drops. */
  function Dropped(s: seq<int>, i: nat): int
    requires |s| == 10 && i < 10
  {
    s[i] + Estimate(s, i) - Lifted(Estimate(s, i + 1), i)
  }

  lemma DroppedRange(s: seq<int>, i: nat)
    requires |s| == 10 && i < 10
    ensures 0 <= Dropped(s, i) < Span(i)
    ensures s[i] + Estimate(s, i) == Lifted(Estimate(s, i + 1), i) + Dropped(s, i)
  {
    var x := s[i] + Estimate(s, i);
    assert Estimate(s, i + 1) == FloorOf(x, i);
  }

  function DroppedLimbs(s: seq<int>): seq<int>
    requires |s| == 10
  {
    seq(10, i requires 0 <= i < 10 => Dropped(s, i))
  }

  /** The chain divides the number, plus the first estimate, by 2^255. */
  lemma EstimateDivides(s: seq<int>) returns (r: int)
    requires |s| == 10
    ensures Num(s) + Estimate(s, 0) == TWO255 * Estimate(s, 10) + r && 0 <= r < TWO255
  {
    DroppedRange(s, 0);
    DroppedRange(s, 1);
    DroppedRange(s, 2);
    DroppedRange(s, 3);
    DroppedRange(s, 4);
    DroppedRange(s, 5);
    DroppedRange(s, 6);
    DroppedRange(s, 7);
    DroppedRange(s, 8);
    DroppedRange(s, 9);
    r := Num(DroppedLimbs(s));
  }

  /** With h = TWO255 * q + r - e and e close to 19 * h / 2^255, q is the quotient by P. */
  lemma EstimateIsQuotient(h: int, low: int, h9: int, e: int, q: int, r: int)
    requires h == low + E9 * h9 && Within(low, E9 * 0x1000_0000 / 0x200_0000)
    requires Within(h9, FREEZE_ODD) && e == (19 * h9 + 0x100_0000) / 0x200_0000
    requires h + e == TWO255 * q + r && 0 <= r < TWO255
    ensures 0 <= h - P * q < P
  {
    assert 0x200_0000 * e <= 19 * h9 + 0x100_0000 < 0x200_0000 * e + 0x200_0000;
    assert TWO255 * e <= 19 * E9 * h9 + E9 * 0x100_0000 < TWO255 * e + TWO255;
    assert Within(e, 30);
    assert -4 < q < 4;
    if h - P * q < 0 {
      assert false;
    }
    if h - P * q >= P {
      assert false;
    }
  }

  lemma LowPart(s: seq<int>)
    requires LimbsWithin(s, FREEZE_EVEN, FREEZE_ODD)
    ensures Within(Num(s) - E9 * s[9], E9 * 0x1000_0000 / 0x200_0000)
  {
  }

  /** The chained shifts compute exactly the floor of the number over P. */
  lemma EstimateIsFloor(s: seq<int>)
    requires LimbsWithin(s, FREEZE_EVEN, FREEZE_ODD)
    ensures Estimate(s, 10) == Num(s) / P
  {
    var r := EstimateDivides(s);
    LowPart(s);
    EstimateIsQuotient(Num(s), Num(s) - E9 * s[9], s[9], Estimate(s, 0), Estimate(s, 10), r);
    DivModUnique(Num(s), P, Estimate(s, 10), Num(s) - P * Estimate(s, 10));
  }

  /** One shift of the chain. */
  method NextEstimate(h: array<int32>, q: int32, i: nat) returns (r: int32)
    requires h.Length == 10 && i < 10 && q as int == Estimate(h[..], i)
    requires Within(h[i], FREEZE_EVEN) && (i % 2 == 1 ==> Within(h[i], FREEZE_ODD)) && Within(q, 30)
    ensures r as int == Estimate(h[..], i + 1) && Within(r, 3)
  {
    var x: int32 := h[i] + q;
    r := FloorOf(x, i);
  }

  /** The quotient of h by P. */
  method Quotient(h: array<int32>) returns (q: int32)
    requires h.Length == 10 && LimbsWithin(h[..], FREEZE_EVEN, FREEZE_ODD)
    ensures q == Num(h[..]) / P && Within(q, 4)
  {
    EstimateIsFloor(h[..]);
    LimbsOf(h);
    q := FloorOf(19 * h[9] + 0x100_0000, 1);
    assert q as int == Estimate(h[..], 0);
    q := NextEstimate(h, q, 0);
    q := NextEstimate(h, q, 1);
    q := NextEstimate(h, q, 2);
    q := NextEstimate(h, q, 3);
    q := NextEstimate(h, q, 4);
    q := NextEstimate(h, q, 5);
    q := NextEstimate(h, q, 6);
    q := NextEstimate(h, q, 7);
    q := NextEstimate(h, q, 8);
    q := NextEstimate(h, q, 9);
  }

  /** carry = t[i] >> width, into limb i + 1. */
  method Floor(t: array<int32>, i: nat)
    requires t.Length == 10 && i < 9 && Within(t[i], 0x700_0000) && Within(t[i + 1], 0x600_0000)
    modifies t
    ensures Num(t[..]) == old(Num(t[..]))
    ensures 0 <= t[i] < Span(i) && Within(t[i + 1] as int - old(t[i + 1]) as int, 5)
    ensures forall j | 0 <= j < 10 && j != i && j != i + 1 :: t[j] == old(t[j])
  {
    var carry: int32 := FloorOf(t[i], i);
    PassedNum(t[..], i, carry);
    Give(t, i, carry);
  }

  /** Takes the carry out of limb i and adds it to limb i + 1. */
  method Give(t: array<int32>, i: nat, carry: int32)
    requires t.Length == 10 && i < 9 && Within(carry, 5) && Within(t[i + 1], 0x600_0000)
    requires 0 <= t[i] - Lifted(carry, i) < Span(i)
    modifies t
    ensures t[..] == Passed(old(t[..]), i, carry)
    ensures t[i] == old(t[i]) - Lifted(carry, i) && t[i + 1] == old(t[i + 1]) + carry
    ensures forall j | 0 <= j < 10 && j != i && j != i + 1 :: t[j] == old(t[j])
  {
    var shifted: int32 := Lifted(carry, i);
    t[i + 1] := t[i + 1] + carry;
    t[i] := t[i] - shifted;
  }

  predicate Floored(t: array<int32>, m: nat)
    requires t.Length == 10 && m <= 10
    reads t
  {
    forall i | 0 <= i < m :: 0 <= t[i] < Span(i)
  }

  predicate Raw(t: array<int32>, m: nat)
    requires t.Length == 10 && m <= 10
    reads t
  {
    forall i | m <= i < 10 :: Within(t[i], if i % 2 == 0 then 0x500_0000 else 0x300_0000)
  }

  /** The carry out of limb i, when the limbs below it have their widths and the ones above are as given. */
  method NextFloor(t: array<int32>, i: nat)
    requires t.Length == 10 && i < 9 && Floored(t, i) && Within(t[i], 0x600_0000) && Raw(t, i + 1)
    modifies t
    ensures Num(t[..]) == old(Num(t[..]))
    ensures Floored(t, i + 1) && Within(t[i + 1], 0x600_0000) && Raw(t, i + 2)
  {
    Floor(t, i);
  }

  method LowerFloors(t: array<int32>)
    requires t.Length == 10 && Raw(t, 0)
    modifies t
    ensures Num(t[..]) == old(Num(t[..]))
    ensures Floored(t, 5) && Within(t[5], 0x600_0000) && Raw(t, 6)
  {
    NextFloor(t, 0);
    NextFloor(t, 1);
    NextFloor(t, 2);
    NextFloor(t, 3);
    NextFloor(t, 4);
  }

  method UpperFloors(t: array<int32>)
    requires t.Length == 10 && Floored(t, 5) && Within(t[5], 0x600_0000) && Raw(t, 6)
    modifies t
    ensures Num(t[..]) == old(Num(t[..]))
    ensures Floored(t, 9) && Within(t[9], 0x600_0000)
  {
    NextFloor(t, 5);
    NextFloor(t, 6);
    NextFloor(t, 7);
    NextFloor(t, 8);
  }

  /** Limbs in their widths below the top one, the whole below 2^255: the top carry is the quotient. */
  lemma TopCarry(s: seq<int>, n: int, q: int)
    requires |s| == 10 && (forall i | 0 <= i < 9 :: 0 <= s[i] < Span(i))
    requires Num(s) == n + 19 * q && 0 <= n - P * q < P
    ensures FloorOf(s[9], 9) == q
    ensures 0 <= s[9] - Lifted(q, 9) < Span(9)
    ensures Num(s[9 := s[9] - Lifted(q, 9)]) == n - P * q
  {
    assert 0 <= s[0] && 0 <= s[1] && 0 <= s[2] && 0 <= s[3] && 0 <= s[4] && 0 <= s[5] && 0 <= s[6] && 0 <= s[7]
        && 0 <= s[8];
    assert s[0] < Span(0) && s[1] < Span(1) && s[2] < Span(2) && s[3] < Span(3) && s[4] < Span(4);
    assert s[5] < Span(5) && s[6] < Span(6) && s[7] < Span(7) && s[8] < Span(8);
    var low := Num(s) - E9 * s[9];
    assert 0 <= low < E9;
  }

  /** h - P * q in limbs that fit their widths. */
  method Freeze(h: array<int32>) returns (t: array<int32>)
    requires h.Length == 10 && LimbsWithin(h[..], FREEZE_EVEN, FREEZE_ODD)
    ensures fresh(t) && t.Length == 10 && Floored(t, 10) && Num(t[..]) == Num(h[..]) % P
  {
    ghost var n := Num(h[..]);
    var q := Quotient(h);
    t := new int32[10] (i requires 0 <= i < 10 reads h => h[i]);
    assert t[..] == h[..];
    LimbsOf(t);
    t[0] := t[0] + 19 * q;
    LowerFloors(t);
    UpperFloors(t);
    DropTop(t, n, q);
  }

  /** The carry out of limb 9 is dropped. */
  method DropTop(t: array<int32>, ghost n: int, ghost q: int)
    requires t.Length == 10 && Floored(t, 9) && Within(t[9], 0x600_0000)
    requires Num(t[..]) == n + 19 * q && 0 <= n - P * q < P
    modifies t
    ensures Floored(t, 10) && Num(t[..]) == n - P * q
  {
    TopCarry(t[..], n, q);
    var carry: int32 := FloorOf(t[9], 9);
    ghost var s := t[..];
    t[9] := t[9] - carry * 0x200_0000;
    assert t[..] == s[9 := s[9] - Lifted(q, 9)];
  }

  lemma LimbsOf(t: array<int32>)
    requires t.Length == 10 && LimbsWithin(t[..], FREEZE_EVEN, FREEZE_ODD)
    ensures Raw(t, 0)
    ensures forall i | 0 <= i < 10 :: Within(t[i], if i % 2 == 0 then FREEZE_EVEN else FREEZE_ODD)
  {
    var s := t[..];
    assert forall i | 0 <= i < 10 :: s[i] == t[i];
  }

  // ---- the ten limbs as 32 bytes ----

  /** The width of limb i. */
  function WidthOf(i: nat): nat {
    if i % 2 == 0 then 26 else 25
  }

  function LimbWidths(): seq<nat> {
    seq(10, i requires 0 <= i < 10 => WidthOf(i))
  }

  /** The bit position of limb i. */
  function Position(i: nat): nat {
    (51 * i + 1) / 2
  }

  lemma PositionNext(i: nat)
    ensures Position(i + 1) == Position(i) + WidthOf(i)
  {
    var m := i / 2;
    DivModUnique(51 * (2 * m) + 1, 2, 51 * m, 1);
    DivModUnique(51 * (2 * m + 1) + 1, 2, 51 * m + 26, 0);
    DivModUnique(51 * (2 * m + 2) + 1, 2, 51 * m + 51, 1);
  }

  lemma {:induction false} OffsetOfWidths(i: nat)
    requires i <= 10
    ensures Offset(LimbWidths(), i) == Position(i)
  {
    if i > 0 {
      OffsetOfWidths(i - 1);
      OffsetNext(LimbWidths(), i - 1);
      PositionNext(i - 1);
    }
  }

  lemma DblWidth(x: int, i: nat)
    ensures Dbl(x, WidthOf(i)) == Span(i) * x
  {
    Dbl25(x, 0);
  }

  lemma Peel(s: seq<int>, m: nat)
    requires |s| == 10 && m < 10
    ensures Value(s[m..], LimbWidths()[m..]) == s[m] + Span(m) * Value(s[m + 1..], LimbWidths()[m + 1..])
  {
    ValueHead(s, LimbWidths(), m);
    DblWidth(Value(s[m + 1..], LimbWidths()[m + 1..]), m);
  }

  lemma UpperValue(s: seq<int>)
    requires |s| == 10
    ensures Value(s[5..], LimbWidths()[5..])
            == s[5] + 0x200_0000 * (s[6] + 0x400_0000 * (s[7] + 0x200_0000 * (s[8] + 0x400_0000 * s[9])))
  {
    Peel(s, 5);
    Peel(s, 6);
    Peel(s, 7);
    Peel(s, 8);
    Peel(s, 9);
    assert s[10..] == [];
  }

  lemma ValueIsNum(s: seq<int>)
    requires |s| == 10
    ensures Value(s, LimbWidths()) == Num(s)
  {
    assert s[0..] == s && LimbWidths()[0..] == LimbWidths();
    Peel(s, 0);
    Peel(s, 1);
    Peel(s, 2);
    Peel(s, 3);
    Peel(s, 4);
    UpperValue(s);
  }

  lemma SpanIsPower(i: nat)
    ensures Span(i) == Pow2(WidthOf(i))
  {
    DblWidth(1, i);
    DblIsProduct(1, WidthOf(i));
  }

  lemma FlooredIsCarried(s: seq<int>)
    requires |s| == 10 && forall i | 0 <= i < 10 :: 0 <= s[i] < Span(i)
    ensures Carried(s, LimbWidths())
  {
    forall i | 0 <= i < 10
      ensures s[i] < Pow2(LimbWidths()[i])
    {
      SpanIsPower(i);
    }
  }

  /** The limb and the shift that byte j starts from. */
  function Slot(j: nat): (p: (nat, nat))
    requires j < 32
    ensures p.0 < 10 && Position(p.0) + p.1 == 8 * j && p.1 <= WidthOf(p.0) && (p.0 < 9 || p.1 <= 18)
  {
    match j
    case 0 => (0, 0)
    case 1 => (0, 8)
    case 2 => (0, 16)
    case 3 => (0, 24)
    case 4 => (1, 6)
    case 5 => (1, 14)
    case 6 => (1, 22)
    case 7 => (2, 5)
    case 8 => (2, 13)
    case 9 => (2, 21)
    case 10 => (3, 3)
    case 11 => (3, 11)
    case 12 => (3, 19)
    case 13 => (4, 2)
    case 14 => (4, 10)
    case 15 => (4, 18)
    case 16 => (5, 0)
    case 17 => (5, 8)
    case 18 => (5, 16)
    case 19 => (5, 24)
    case 20 => (6, 7)
    case 21 => (6, 15)
    case 22 => (6, 23)
    case 23 => (7, 5)
    case 24 => (7, 13)
    case 25 => (7, 21)
    case 26 => (8, 4)
    case 27 => (8, 12)
    case 28 => (8, 20)
    case 29 => (9, 2)
    case 30 => (9, 10)
    case _ => (9, 18)
  }

  /** Byte j of the encoding, from one limb or from two neighbours. */
  function EncodedByte(s: seq<int>, j: nat): int
    requires j < 32 && Carried(s, LimbWidths())
  {
    ByteFrom(s, LimbWidths(), Slot(j).0, Slot(j).1)
  }

  /** The stored bytes are the bytes of the number. */
  lemma EncodedIsByte(s: seq<int>, j: nat)
    requires j < 32 && Carried(s, LimbWidths())
    ensures Value(s, LimbWidths()) >= 0 && EncodedByte(s, j) == Shr(Value(s, LimbWidths()), 8 * j) % 256
  {
    ByteAt(s, Slot(j).0, Slot(j).1);
  }

  /** The byte at bit a of limb m. */
  lemma ByteAt(s: seq<int>, m: nat, a: nat)
    requires Carried(s, LimbWidths()) && m < 10 && a <= WidthOf(m)
    requires m < 9 ==> WidthOf(m) - a + WidthOf(m + 1) >= 8
    ensures Value(s, LimbWidths()) >= 0
    ensures ByteFrom(s, LimbWidths(), m, a) == Shr(Value(s, LimbWidths()), Position(m) + a) % 256
  {
    OffsetOfWidths(m);
    ByteFromIs(s, LimbWidths(), m, a);
  }

  /** s := the canonical encoding of h, the unique 32 bytes whose number is the residue. */
  method FeToBytes(s: array<byte>, h: array<int32>)
    requires s.Length == 32 && h.Length == 10 && LimbsWithin(h[..], FREEZE_EVEN, FREEZE_ODD)
    modifies s
    ensures Bytes(s[..]) == Num(h[..]) % P
  {
    var t := Freeze(h);
    var low := t[..];
    ghost var x := Num(low);
    FlooredIsCarried(low);
    ValueIsNum(low);
    forall j | 0 <= j < 32
      ensures 0 <= EncodedByte(low, j) < 256 && EncodedByte(low, j) == Shr(x, 8 * j) % 256
    {
      EncodedIsByte(low, j);
    }
    forall j | 0 <= j < 32 {
      s[j] := EncodedByte(low, j);
    }
    Dbl256();
    BytesOf(s[..], x);
  }

  /** Which byte strings are canonical. */
  lemma Canonical(s: seq<byte>, t: seq<byte>)
    requires |s| == |t| && Bytes(t) == (Bytes(s) % TWO255) % P
    ensures Bytes(s) < P <==> t == s
  {
    if Bytes(s) < P {
      DivModUnique(Bytes(s), TWO255, 0, Bytes(s));
      DivModUnique(Bytes(s), P, 0, Bytes(s));
      BytesInjective(t, s);
    }
  }

  /** Decoding and encoding clears the top bit and reduces; exactly the canonical encodings come back unchanged. */
  method RoundTrip(s: array<byte>) returns (t: array<byte>)
    requires s.Length == 32
    ensures fresh(t) && t.Length == 32 && Bytes(t[..]) == (Bytes(s[..]) % TWO255) % P
    ensures Bytes(s[..]) < P <==> t[..] == s[..]
  {
    var h := new int32[10];
    FeFromBytes(h, s);
    t := new byte[32];
    WithinFreeze(h[..]);
    FeToBytes(t, h);
    Canonical(s[..], t[..]);
  }

  lemma WithinFreeze(s: seq<int>)
    requires LimbsWithin(s, TIGHT_EVEN, TIGHT_ODD)
    ensures LimbsWithin(s, FREEZE_EVEN, FREEZE_ODD)
  {
  }
}
