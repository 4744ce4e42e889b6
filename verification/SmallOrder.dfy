/** The table of small-order points: on the curve, exactly its entries are y coordinates of points of order 1 to 8. */
module SmallOrder {
  import opened Arithmetic
  import opened Limbs
  import opened Signature
  import Field

  // ---- numbers that count as zero ----

  // Each law is a predicate of its own, so that a proof names the instances it uses.

  ghost predicate Minus(zero: int -> bool, a: int, b: int) {
    zero(a) && zero(b) ==> zero(a - b)
  }

  ghost predicate Times(zero: int -> bool, a: int, k: int) {
    zero(a) ==> zero(a * k)
  }

  ghost predicate Divides(zero: int -> bool, a: int, b: int) {
    zero(a * b) ==> zero(a) || zero(b)
  }

  /** Sums and multiples of zeros are zero. */
  ghost predicate Ideal(zero: int -> bool) {
    (forall a, b :: Minus(zero, a, b)) && (forall a, k :: Times(zero, a, k))
  }

  /** A product is zero only if a factor is. */
  ghost predicate Prime(zero: int -> bool) {
    forall a, b :: Divides(zero, a, b)
  }

  ghost predicate NotSquare(zero: int -> bool, s: int) {
    !zero(121666 * (s * s) + 121665)
  }

  /** The constant of the curve, -121665/121666, is not a square. */
  ghost predicate NonSquare(zero: int -> bool) {
    forall s :: NotSquare(zero, s)
  }

  /** The point lies on -x^2 + y^2 = 1 - (121665/121666) x^2 y^2. */
  predicate OnCurve(zero: int -> bool, x: int, y: int) {
    zero(121666 * (y * y - x * x - 1) + 121665 * ((x * x) * (y * y)))
  }

  /**
   * Eight times the point is the neutral element (0, 1). A point doubles to one with x = 2xy / .. and
   * y = (y^2 + x^2) / ..; so four times the point has x = 0, as (0, 1) and (0, -1) alone have, exactly when one of the
   * three is zero.
   */
  predicate Vanishes(zero: int -> bool, x: int, y: int) {
    zero(x) || zero(y) || zero(x * x + y * y)
  }

  // ---- the y of a point of small order, in any field ----

  lemma SquareRoots(zero: int -> bool, y: int, r: int)
    requires Prime(zero) && zero(y * y - r * r)
    ensures zero(y - r) || zero(y + r)
  {
    assert (y - r) * (y + r) == y * y - r * r;
    assert Divides(zero, y - r, y + r);
  }

  lemma OrderTwo(zero: int -> bool, x: int, y: int)
    requires Ideal(zero) && Prime(zero) && OnCurve(zero, x, y) && zero(x) && !zero(121666)
    ensures zero(y - 1) || zero(y + 1)
  {
    var u, z := x * x, y * y;
    assert Times(zero, x, x);
    assert Times(zero, u, 121665 * z - 121666);
    assert Minus(zero, 121666 * (z - u - 1) + 121665 * (u * z), u * (121665 * z - 121666));
    assert 121666 * (z - u - 1) + 121665 * (u * z) - u * (121665 * z - 121666) == 121666 * (z - 1);
    assert Divides(zero, 121666, z - 1);
    SquareRoots(zero, y, 1);
  }

  /** What the square z of the y of a point of order 8 satisfies. */
  function Quadratic(z: int): int {
    121665 * (z * z) - 243332 * z + 121666
  }

  lemma QuadraticOfEighth(zero: int -> bool, x: int, y: int)
    requires Ideal(zero) && OnCurve(zero, x, y) && zero(x * x + y * y)
    ensures zero(Quadratic(y * y))
  {
    var u, z := x * x, y * y;
    var c := 121666 * (z - u - 1) + 121665 * (u * z);
    assert Times(zero, u + z, 121665 * z - 121666);
    assert Minus(zero, (u + z) * (121665 * z - 121666), c);
    assert (u + z) * (121665 * z - 121666) - c == Quadratic(z);
  }

  lemma Factor(z: int, w: int)
    ensures Quadratic(z) - Quadratic(w) == (z - w) * (121665 * (z + w) - 243332)
  {
  }

  /** Two roots of the quadratic have the same square, or their squares sum to 243332/121665. */
  lemma Roots(zero: int -> bool, y: int, r: int)
    requires Ideal(zero) && Prime(zero) && zero(Quadratic(y * y)) && zero(Quadratic(r * r))
    ensures zero(y - r) || zero(y + r) || zero(121665 * (y * y + r * r) - 243332)
  {
    var z, w := y * y, r * r;
    assert Minus(zero, Quadratic(z), Quadratic(w));
    Factor(z, w);
    assert Divides(zero, z - w, 121665 * (z + w) - 243332);
    if zero(z - w) {
      SquareRoots(zero, y, r);
    }
  }

  /** In the second case the square of their product is 121666/121665. */
  lemma Product(zero: int -> bool, y: int, r: int)
    requires Ideal(zero) && zero(Quadratic(y * y)) && zero(121665 * (y * y + r * r) - 243332)
    ensures zero(121665 * ((y * r) * (y * r)) - 121666)
  {
    var z, w := y * y, r * r;
    assert Times(zero, 121665 * (z + w) - 243332, z);
    assert Minus(zero, (121665 * (z + w) - 243332) * z, Quadratic(z));
    assert (121665 * (z + w) - 243332) * z - Quadratic(z) == 121665 * (z * w) - 121666;
    assert (y * r) * (y * r) == z * w;
  }

  /** Then the curve's constant is a square as well: v is 1/121666, and k is 121665/121666 times a root of -1. */
  lemma SquareOfConstant(zero: int -> bool, t: int, k: int, v: int)
    requires Ideal(zero) && zero(121666 * (k * k) + 121665 * 121665 * v) && zero(121665 * 121666 * v - 121665)
    requires zero(121665 * (t * t) - 121666)
    ensures zero(121666 * ((k * t) * (k * t)) + 121665)
  {
    var u, w, vu := t * t, k * k, v * (t * t);
    var a, b := 121666 * w + 121665 * 121665 * v, 121665 * u - 121666;
    assert Times(zero, a, u) && Times(zero, b, 121665 * v);
    assert a * u == 121666 * (w * u) + 121665 * 121665 * vu;
    assert b * (121665 * v) == 121665 * 121665 * vu - 121665 * 121666 * v;
    assert Minus(zero, a * u, b * (121665 * v));
    assert Minus(zero, a * u - b * (121665 * v), 121665 * 121666 * v - 121665);
    assert (k * t) * (k * t) == w * u;
  }

  /** The y of a point of order 8 is one known y, up to its sign. */
  lemma Eighth(zero: int -> bool, x: int, y: int, r: int, k: int, v: int)
    requires Ideal(zero) && Prime(zero) && NonSquare(zero) && zero(Quadratic(r * r))
    requires OnCurve(zero, x, y) && zero(x * x + y * y)
    requires zero(121666 * (k * k) + 121665 * 121665 * v) && zero(121665 * 121666 * v - 121665)
    ensures zero(y - r) || zero(y + r)
  {
    QuadraticOfEighth(zero, x, y);
    Roots(zero, y, r);
    if zero(121665 * (y * y + r * r) - 243332) {
      Product(zero, y, r);
      SquareOfConstant(zero, y * r, k, v);
      assert NotSquare(zero, k * (y * r));
    }
  }

  // ---- modulo 2^255 - 19 ----

  ghost predicate Multiple(zero: int -> bool, n: int) {
    zero(n) <==> n % Field.P == 0
  }

  /** The multiples of 2^255 - 19 count as zero, and nothing else. */
  ghost predicate Modulo25519(zero: int -> bool) {
    forall n :: Multiple(zero, n)
  }

  lemma TimesModulo(a: int, k: int, m: int)
    requires m > 0 && a % m == 0
    ensures a * k % m == 0
  {
    var q := a / m;
    assert a * k == q * k * m + 0;
    DivModUnique(a * k, m, q * k, 0);
  }

  lemma ModuloIdeal(zero: int -> bool)
    requires Modulo25519(zero)
    ensures Ideal(zero)
  {
    forall a, b
      ensures Minus(zero, a, b)
    {
      assert Multiple(zero, a) && Multiple(zero, b) && Multiple(zero, a - b);
    }
    forall a, k
      ensures Times(zero, a, k)
    {
      assert Multiple(zero, a) && Multiple(zero, a * k);
      if zero(a) {
        TimesModulo(a, k, Field.P);
      }
    }
  }

  const X4: int := 0x2b8324804fc1df0b2b4d00993dfbd7a72f431806ad2fe478c4ee1b274a0ea0b0
  const X8: int := 0x1fd5b9a006394a28e933993238de4abb5c193c7013e5e238dea14646c545d14a
  const Y8: int := 0x5fc536d880238b13933c6d305acdfd5f098eff289f4c345b027b2c28f95e826
  const INVERSE: int := 0x52036cee2b6ffe738cc740797779e89800700a4d4141d8ab75eb4dca135978a4
  const FACTOR: int := 121665 * INVERSE * X4

  predicate ModuloZero(n: int) {
    n % Field.P == 0
  }

  // ---- the numbers behind the table, computed ----

  lemma FourthPoint()
    ensures OnCurve(ModuloZero, X4, 0)
  {
  }

  lemma SecondPoints()
    ensures OnCurve(ModuloZero, 0, 1) && OnCurve(ModuloZero, 0, Field.P - 1)
  {
  }

  lemma EighthPoint()
    ensures OnCurve(ModuloZero, X8, Y8) && ModuloZero(X8 * X8 + Y8 * Y8)
  {
  }

  lemma OppositePoint()
    ensures OnCurve(ModuloZero, Field.P - X8, Field.P - Y8)
    ensures ModuloZero((Field.P - X8) * (Field.P - X8) + (Field.P - Y8) * (Field.P - Y8))
  {
  }

  lemma KnownRoot()
    ensures ModuloZero(Quadratic(Y8 * Y8)) && !ModuloZero(121666)
  {
  }

  lemma KnownFactor()
    ensures ModuloZero(121666 * (FACTOR * FACTOR) + 121665 * 121665 * INVERSE)
    ensures ModuloZero(121665 * 121666 * INVERSE - 121665)
  {
  }

  lemma Transfer(zero: int -> bool, n: int)
    requires Modulo25519(zero)
    ensures zero(n) <==> ModuloZero(n)
  {
    assert Multiple(zero, n);
  }

  lemma TransferCurve(zero: int -> bool, x: int, y: int)
    requires Modulo25519(zero)
    ensures OnCurve(zero, x, y) <==> OnCurve(ModuloZero, x, y)
  {
    Transfer(zero, 121666 * (y * y - x * x - 1) + 121665 * ((x * x) * (y * y)));
  }

  /** The numbers in the table. */
  predicate Listed(y: int) {
    y == 0 || y == 1 || y == Y8 || y == Field.P - Y8 || y == Field.P - 1
  }

  /** A point with such a y. */
  function PointX(y: int): int {
    if y == 0 then X4 else if y == Y8 then X8 else if y == Field.P - Y8 then Field.P - X8 else 0
  }

  lemma ListedIsSmall(zero: int -> bool, y: int)
    requires Modulo25519(zero) && Listed(y)
    ensures OnCurve(zero, PointX(y), y) && Vanishes(zero, PointX(y), y)
  {
    FourthPoint();
    SecondPoints();
    EighthPoint();
    OppositePoint();
    TransferCurve(zero, PointX(y), y);
    Transfer(zero, 0);
    Transfer(zero, PointX(y) * PointX(y) + y * y);
  }

  lemma Residue(zero: int -> bool, y: int, r: int)
    requires Modulo25519(zero) && 0 <= y < Field.P && 0 < r < Field.P && (zero(y - r) || zero(y + r))
    ensures y == r || y == Field.P - r
  {
    assert Multiple(zero, y - r) && Multiple(zero, y + r);
  }

  lemma EighthConstants(zero: int -> bool)
    requires Modulo25519(zero)
    ensures zero(Quadratic(Y8 * Y8)) && !zero(121666)
    ensures zero(121666 * (FACTOR * FACTOR) + 121665 * 121665 * INVERSE) && zero(121665 * 121666 * INVERSE - 121665)
  {
    KnownRoot();
    KnownFactor();
    Transfer(zero, Quadratic(Y8 * Y8));
    Transfer(zero, 121666);
    Transfer(zero, 121666 * (FACTOR * FACTOR) + 121665 * 121665 * INVERSE);
    Transfer(zero, 121665 * 121666 * INVERSE - 121665);
  }

  lemma SmallIsListed(zero: int -> bool, x: int, y: int)
    requires Modulo25519(zero) && Prime(zero) && NonSquare(zero) && 0 <= y < Field.P
    requires OnCurve(zero, x, y) && Vanishes(zero, x, y)
    ensures Listed(y)
  {
    ModuloIdeal(zero);
    EighthConstants(zero);
    if zero(y) {
      assert Multiple(zero, y);
    } else if zero(x) {
      OrderTwo(zero, x, y);
      Residue(zero, y, 1);
    } else {
      Eighth(zero, x, y, Y8, FACTOR, INVERSE);
      Residue(zero, y, Y8);
    }
  }

  /** Some point with this y has order 1, 2, 4 or 8. */
  ghost predicate SmallY(zero: int -> bool, y: int) {
    exists x :: OnCurve(zero, x, y) && Vanishes(zero, x, y)
  }

  lemma ListedExactly(zero: int -> bool, y: int)
    requires Modulo25519(zero) && Prime(zero) && NonSquare(zero) && 0 <= y < Field.P
    ensures Listed(y) <==> SmallY(zero, y)
  {
    if Listed(y) {
      ListedIsSmall(zero, y);
    }
    forall x | OnCurve(zero, x, y) && Vanishes(zero, x, y)
      ensures Listed(y)
    {
      SmallIsListed(zero, x, y);
    }
  }

  // ---- the table ----

  /** The 32-bit words of the entries. */
  function Word(i: nat, k: nat): int
    requires i < 5 && k < 8
  {
    match i
    case 0 => 0
    case 1 => if k == 0 then 1 else 0
    case 2 => [0x8f95e826, 0xb027b2c2, 0x89f4c345, 0xf098eff2, 0x05acdfd5, 0x3933c6d3, 0x880238b1, 0x05fc536d][k]
    case 3 => [0x706a17c7, 0x4fd84d3d, 0x760b3cba, 0x0f67100d, 0xfa53202a, 0xc6cc392c, 0x77fdc74e, 0x7a03ac92][k]
    case 4 => if k == 0 then 0xffffffec else if k == 7 then 0x7fffffff else 0xffffffff
  }

  lemma LowWords(i: nat)
    requires 2 <= i <= 3
    ensures var s := SMALL_ORDER_Y[i];
            Load4(s, 0) == Word(i, 0) && Load4(s, 4) == Word(i, 1)
  {
  }

  lemma MiddleWords(i: nat)
    requires 2 <= i <= 3
    ensures var s := SMALL_ORDER_Y[i];
            Load4(s, 8) == Word(i, 2) && Load4(s, 12) == Word(i, 3)
  {
  }

  lemma HighWords(i: nat)
    requires 2 <= i <= 3
    ensures var s := SMALL_ORDER_Y[i];
            && Load4(s, 16) == Word(i, 4) && Load4(s, 20) == Word(i, 5) && Load4(s, 24) == Word(i, 6)
            && Load4(s, 28) == Word(i, 7)
  {
  }

  lemma OtherWords(i: nat)
    requires i == 0 || i == 1 || i == 4
    ensures var s := SMALL_ORDER_Y[i];
            && Load4(s, 0) == Word(i, 0) && Load4(s, 28) == Word(i, 7)
            && forall k | k in {4, 8, 12, 16, 20, 24} :: Load4(s, k) == Word(i, 1)
  {
  }

  lemma EntryNumber(i: nat, s: seq<byte>)
    requires i < 5 && |s| == 32 && Load4(s, 0) == Word(i, 0) && Load4(s, 4) == Word(i, 1)
    requires Load4(s, 8) == Word(i, 2) && Load4(s, 12) == Word(i, 3) && Load4(s, 16) == Word(i, 4)
    requires Load4(s, 20) == Word(i, 5) && Load4(s, 24) == Word(i, 6) && Load4(s, 28) == Word(i, 7)
    ensures Bytes(s) == Entry(i)
  {
    ByWords(s);
  }

  function Entry(i: nat): int {
    if i == 0 then 0 else if i == 1 then 1 else if i == 2 then Y8 else if i == 3 then Field.P - Y8 else Field.P - 1
  }

  lemma EntryIsListed(i: nat)
    requires i < 5
    ensures |SMALL_ORDER_Y| == 5 && |SMALL_ORDER_Y[i]| == 32 && Bytes(SMALL_ORDER_Y[i]) == Entry(i)
  {
    if 2 <= i <= 3 {
      LowWords(i);
      MiddleWords(i);
      HighWords(i);
    } else {
      OtherWords(i);
    }
    EntryNumber(i, SMALL_ORDER_Y[i]);
  }

  /** A table of the five numbers, in this order. */
  predicate Tabulates(table: seq<seq<byte>>) {
    |table| == 5 && forall i | 0 <= i < 5 :: |table[i]| == 32 && Bytes(table[i]) == Entry(i)
  }

  lemma TableTabulates()
    ensures Tabulates(SMALL_ORDER_Y)
  {
    forall i | 0 <= i < 5
      ensures |SMALL_ORDER_Y| == 5 && |SMALL_ORDER_Y[i]| == 32 && Bytes(SMALL_ORDER_Y[i]) == Entry(i)
    {
      EntryIsListed(i);
    }
  }

  lemma InTable(table: seq<seq<byte>>, y: seq<byte>)
    requires Tabulates(table) && |y| == 32
    ensures y in table <==> Listed(Bytes(y))
  {
    if Listed(Bytes(y)) {
      var n := Bytes(y);
      var i := if n == 0 then 0 else if n == 1 then 1 else if n == Y8 then 2 else if n == Field.P - Y8 then 3 else 4;
      BytesInjective(y, table[i]);
    }
  }

  /**
   * In the field of the curve, with the number 2^255 - 19 prime and the constant no square: a canonical y coordinate is
   * in the table exactly when a point of the curve with that y has order 1, 2, 4 or 8.
   */
  lemma TableIsSmallOrder(zero: int -> bool, table: seq<seq<byte>>, y: seq<byte>)
    requires Modulo25519(zero) && Prime(zero) && NonSquare(zero) && |y| == 32 && Bytes(y) < Field.P
    requires Tabulates(table)
    ensures y in table <==> SmallY(zero, Bytes(y))
  {
    InTable(table, y);
    ListedExactly(zero, Bytes(y));
  }

  /** So a point encoding is strict exactly when its y is canonical and belongs to no point of small order. */
  lemma StrictMeans(zero: int -> bool, encoded: seq<byte>)
    requires Modulo25519(zero) && Prime(zero) && NonSquare(zero) && |encoded| == 32
    ensures Strict(encoded) <==> Bytes(YOf(encoded)) < Field.P && !SmallY(zero, Bytes(YOf(encoded)))
  {
    if Bytes(YOf(encoded)) < Field.P {
      TableTabulates();
      TableIsSmallOrder(zero, SMALL_ORDER_Y, YOf(encoded));
    }
  }
}
