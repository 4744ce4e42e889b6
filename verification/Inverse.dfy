/** The binary modular inverse over word arrays. */
module Inverse {
  import opened Arithmetic
  import opened Words

  // ---- divisors ----

  ghost predicate Times(k: int, d: int, x: int) {
    k * d == x
  }

  ghost predicate Divides(d: int, x: int) {
    exists k :: Times(k, d, x)
  }

  ghost predicate Common(d: int, x: int, y: int) {
    Divides(d, x) && Divides(d, y)
  }

  /** Only 1 divides both. */
  ghost predicate Coprime(x: int, m: int) {
    forall d | d > 0 && Common(d, x, m) :: d == 1
  }

  /** The pairs (x, y) and (x', y') have the same common divisors. */
  ghost predicate SameDivisors(x: int, y: int, x': int, y': int) {
    forall d :: Common(d, x, y) <==> Common(d, x', y')
  }

  lemma DividesSum(d: int, x: int, y: int)
    requires Divides(d, x) && Divides(d, y)
    ensures Divides(d, x + y) && Divides(d, x - y)
  {
    var j, k :| Times(j, d, x) && Times(k, d, y);
    Distribute(j, k, d);
    assert Times(j + k, d, x + y) && Times(j - k, d, x - y);
  }

  lemma DividesProduct(d: int, x: int, y: int)
    requires Divides(d, x)
    ensures Divides(d, y * x)
  {
    var k :| Times(k, d, x);
    Associate(y, k, d);
    assert Times(y * k, d, y * x);
  }

  /** A product with an odd factor is even only if the other factor is. */
  lemma OddFactor(x: int, m: int)
    requires m % 2 == 1 && (x * m) % 2 == 0
    ensures x % 2 == 0
  {
    var h := m / 2;
    Distribute(2 * h, 1, x);
    Associate(2, h, x);
    assert x * m == 2 * (h * x) + x;
  }

  lemma EvenFactor(k: int, d: int)
    requires d % 2 == 0
    ensures (k * d) % 2 == 0
  {
    Associate(k, 2, d / 2);
    assert k * d == 2 * (k * (d / 2));
  }

  lemma DividesHalf(d: int, x: int, y: int)
    requires x % 2 == 0 && y % 2 == 1
    ensures Common(d, x, y) <==> Common(d, x / 2, y)
  {
    if Common(d, x, y) {
      var j, k :| Times(j, d, x) && Times(k, d, y);
      if d % 2 == 0 {
        EvenFactor(k, d);
        assert false;
      }
      OddFactor(j, d);
      Associate(2, j / 2, d);
      assert Times(j / 2, d, x / 2);
    }
    if Common(d, x / 2, y) {
      DividesProduct(d, x / 2, 2);
    }
  }

  lemma HalvingKeepsDivisors(x: int, y: int)
    requires x % 2 == 0 && y % 2 == 1
    ensures SameDivisors(x, y, x / 2, y)
    ensures SameDivisors(y, x, y, x / 2)
  {
    var h := x / 2;
    forall d
      ensures Common(d, x, y) <==> Common(d, h, y)
      ensures Common(d, y, x) <==> Common(d, y, h)
    {
      DividesHalf(d, x, y);
    }
  }

  lemma SubtractingKeepsDivisors(x: int, y: int)
    ensures SameDivisors(x, y, x - y, y)
    ensures SameDivisors(x, y, x, y - x)
  {
    forall d
      ensures Common(d, x, y) <==> Common(d, x - y, y)
      ensures Common(d, x, y) <==> Common(d, x, y - x)
    {
      if Common(d, x, y) {
        DividesSum(d, x, y);
        DividesSum(d, y, x);
      }
      if Common(d, x - y, y) {
        DividesSum(d, x - y, y);
      }
      if Common(d, x, y - x) {
        DividesSum(d, y - x, x);
      }
    }
  }

  lemma DividesSelf(x: int)
    ensures Divides(1, x) && Divides(x, x)
  {
    assert Times(x, 1, x) && Times(1, x, x);
  }

  // ---- the Bezout equations u * x == a (mod m), with explicit multiples of m ----

  lemma HalveBezout(u: int, u': int, a: int, k: int, x: int, m: int) returns (k': int)
    requires m % 2 == 1 && a % 2 == 0
    requires u * x == a + k * m
    requires 2 * u' == u + u % 2 * m
    ensures u' * x == a / 2 + k' * m
  {
    var e := u % 2;
    var j := k + e * x;
    Distribute(u, e * m, x);
    Associate(e, m, x);
    Associate(x, e, m);
    Distribute(k, e * x, m);
    Associate(2, u', x);
    assert 2 * (u' * x) == a + j * m;
    OddFactor(j, m);
    k' := j / 2;
    Associate(2, k', m);
  }

  lemma SubtractBezout(u: int, v: int, e: int, a: int, b: int, j: int, k: int, x: int, m: int) returns (k': int)
    requires u * x == a + j * m && v * x == b + k * m
    ensures (u + e * m - v) * x == a - b + k' * m
  {
    k' := j + e * x - k;
    Distribute(u + e * m, v, x);
    Distribute(u, e * m, x);
    Distribute(j + e * x, k, m);
    Distribute(j, e * x, m);
    Associate(e, m, x);
    Associate(x, e, m);
  }

  // ---- vli_modInv_update ----

  /** uv := uv / 2 modulo an odd mod, in place. */
  method Update(uv: array<word>, mod: array<word>, n: nat)
    requires n > 0 && uv.Length == n && n <= mod.Length && uv != mod
    requires mod[0] % 2 == 1 && Val(uv[..]) < Val(mod[..n])
    modifies uv
    ensures Val(uv[..]) < Val(mod[..n])
    ensures 2 * Val(uv[..]) == old(Val(uv[..])) + old(Val(uv[..])) % 2 * Val(mod[..n])
  {
    var carry: word := 0;
    ghost var v, m := Val(uv[..]), Val(mod[..n]);
    assert uv[..n] == uv[..];
    LowBit(uv[..]);
    LowBit(mod[..n]);
    if uv[0] % 2 == 1 {
      carry := Add(uv, uv, mod, n);
    }
    UpIsProduct(carry, n);
    OddSum(v, m);
    Halve(uv, n, carry, v + v % 2 * m);
  }

  /** The shift, with the carry of the addition put back as the top bit. */
  method Halve(uv: array<word>, n: nat, carry: word, ghost total: nat)
    requires n > 0 && uv.Length == n && carry <= 1
    requires total % 2 == 0 && Val(uv[..n]) + Up(carry, n) == total
    modifies uv
    ensures 2 * Val(uv[..]) == total
  {
    ghost var sum := Val(uv[..n]);
    assert uv[0..0 + n] == uv[..n];
    Rshift1(uv, 0, n);
    ghost var low, top := uv[..n - 1], uv[n - 1];
    assert uv[0..0 + n] == low + [top];
    if carry != 0 {
      uv[n - 1] := uv[n - 1] + HIGH_BIT; // the top bit is clear after the shift
    }
    HalvedValue(low, top, carry, sum);
    assert uv[..] == low + [if carry != 0 then top + HIGH_BIT else top];
  }

  lemma HalvedValue(low: seq<word>, top: word, carry: word, sum: nat)
    requires top < HIGH_BIT && carry <= 1 && Val(low + [top]) == sum / 2
    requires (sum + Up(carry, |low| + 1)) % 2 == 0
    ensures 2 * Val(low + [if carry != 0 then top + HIGH_BIT else top]) == sum + Up(carry, |low| + 1)
  {
    ReplaceTop(low, top, carry * HIGH_BIT);
    HalfOfCarry(carry, |low| + 1);
  }

  lemma OddSum(v: int, m: int)
    requires m % 2 == 1
    ensures (v + v % 2 * m) % 2 == 0
  {
  }

  lemma HalfOfCarry(carry: word, n: nat)
    requires n > 0
    ensures 2 * Up(carry * HIGH_BIT, n - 1) == Up(carry, n)
    ensures Up(carry, n) % 2 == 0
  {
    var x := carry * HIGH_BIT;
    assert x + x == BASE * carry;
    UpAdd(x, x, n - 1);
    UpSucc(carry, n - 1);
  }

  // ---- the two subtracting branches ----

  /** (u - v) mod m for residues u and v. */
  function Difference(u: nat, v: nat, m: nat): (d: nat)
    requires u < m && v < m
    ensures d < m
  {
    (if u < v then u + m else u) - v
  }

  /** u := (u - v) mod m; a carry out of the addition cancels against the borrow. */
  method SubtractMod(u: array<word>, v: array<word>, mod: array<word>, n: nat)
    requires u.Length == n && v.Length == n && n <= mod.Length && u != v && u != mod
    requires Val(u[..]) < Val(mod[..n]) && Val(v[..]) < Val(mod[..n])
    modifies u
    ensures Val(u[..]) == Difference(old(Val(u[..])), Val(v[..]), Val(mod[..n]))
  {
    assert u[..n] == u[..] && v[..n] == v[..];
    ghost var added := if Val(u[..]) < Val(v[..]) then Val(mod[..n]) else 0;
    ghost var before := Val(u[..]);
    var cmp := CmpUnsafe(u, v, n);
    ghost var carry: word := 0;
    if cmp < 0 {
      carry := Add(u, u, mod, n); // the program drops this carry
    }
    ghost var sum := Val(u[..n]);
    ghost var borrow := Sub(u, u, v, n);
    assert u[..n] == u[..];
    ValBound(u[..]);
    ValBound(mod[..n]);
    CarryCancels(before + added - Val(v[..]), Val(u[..]), carry, borrow, Pow(n));
  }

  lemma CarryCancels(x: int, y: int, carry: int, borrow: int, p: int)
    requires 0 <= x < p && 0 <= y < p && y == x + borrow * p - carry * p
    requires 0 <= carry <= 1 && 0 <= borrow <= 1
    ensures y == x
  {
  }

  // ---- uECC_vli_modInv ----

  /** What the loop keeps: u * x == a and v * x == b modulo m, and the common divisors. */
  ghost predicate Invariant(a: nat, b: nat, u: nat, v: nat, x: nat, m: nat) {
    && a > 0 && b > 0 && u < m && v < m && m % 2 == 1
    && Divides(m, u * x - a) && Divides(m, v * x - b)
    && SameDivisors(a, b, x, m)
  }

  lemma InvariantSwap(a: nat, b: nat, u: nat, v: nat, x: nat, m: nat)
    requires Invariant(a, b, u, v, x, m)
    ensures Invariant(b, a, v, u, x, m)
  {
  }

  lemma InvariantStart(x: nat, m: nat)
    requires x > 0 && m > 1 && m % 2 == 1
    ensures Invariant(x, m, 1, 0, x, m)
  {
    assert Times(0, m, 1 * x - x) && Times(-1, m, 0 * x - m);
  }

  /** Not both values are even: 2 does not divide the odd modulus. */
  lemma OneIsOdd(a: nat, b: nat, u: nat, v: nat, x: nat, m: nat)
    requires Invariant(a, b, u, v, x, m) && a % 2 == 0
    ensures b % 2 == 1
  {
    assert Common(2, a, b) <==> Common(2, x, m);
    TwoDividesEven(a);
    TwoDividesEven(b);
    TwoDividesEven(m);
  }

  lemma TwoDividesEven(x: int)
    ensures Divides(2, x) <==> x % 2 == 0
  {
    if x % 2 == 0 {
      assert Times(x / 2, 2, x);
    }
  }

  lemma HalveStep(a: nat, b: nat, u: nat, v: nat, u': nat, x: nat, m: nat)
    requires Invariant(a, b, u, v, x, m) && a % 2 == 0 && b % 2 == 1
    requires u' < m && 2 * u' == u + u % 2 * m
    ensures Invariant(a / 2, b, u', v, x, m)
  {
    var k :| Times(k, m, u * x - a);
    var k' := HalveBezout(u, u', a, k, x, m);
    assert Times(k', m, u' * x - a / 2);
    HalvingKeepsDivisors(a, b);
  }

  lemma SubtractStep(a: nat, b: nat, u: nat, v: nat, x: nat, m: nat)
    requires Invariant(a, b, u, v, x, m) && a > b
    ensures Invariant(a - b, b, Difference(u, v, m), v, x, m)
  {
    var j, k :| Times(j, m, u * x - a) && Times(k, m, v * x - b);
    var e := if u < v then 1 else 0;
    var k' := SubtractBezout(u, v, e, a, b, j, k, x, m);
    assert Times(k', m, Difference(u, v, m) * x - (a - b));
    SubtractingKeepsDivisors(a, b);
  }

  lemma SubtractHalveStep(a: nat, b: nat, u: nat, v: nat, d: nat, u': nat, x: nat, m: nat)
    requires Invariant(a, b, u, v, x, m) && a > b && a % 2 == 1 && b % 2 == 1
    requires d == Difference(u, v, m) && u' < m && 2 * u' == d + d % 2 * m
    ensures Invariant((a - b) / 2, b, u', v, x, m)
  {
    SubtractStep(a, b, u, v, x, m);
    assert Invariant(a - b, b, d, v, x, m);
    DivModUnique(a - b, 2, a / 2 - b / 2, 0);
    HalveStep(a - b, b, d, v, u', x, m);
  }

  /** At the end a is the greatest common divisor; the result inverts x exactly when that is 1. */
  lemma Finish(a: nat, u: nat, v: nat, x: nat, m: nat)
    requires Invariant(a, a, u, v, x, m) && m > 1
    ensures (u * x) % m == 1 <==> Coprime(x, m)
  {
    var k :| Times(k, m, u * x - a);
    DividesSelf(a);
    assert Common(a, a, a);
    if Coprime(x, m) {
      assert a == 1;
      DivModUnique(u * x, m, k, 1);
    }
    if (u * x) % m == 1 {
      UnitIsCoprime(u, x, m);
    }
  }

  lemma UnitIsCoprime(u: int, x: int, m: int)
    requires m > 1 && (u * x) % m == 1
    ensures Coprime(x, m)
  {
    var p, q := u * x, (u * x) / m;
    QuotientAndRest(p, m);
    forall d | d > 0 && Common(d, x, m)
      ensures d == 1
    {
      DividesProduct(d, x, u);
      DividesProduct(d, m, q);
      DividesSum(d, p, q * m);
      DividesOne(d);
    }
  }

  lemma QuotientAndRest(p: int, m: int)
    requires m > 0
    ensures p - p / m * m == p % m
  {
  }

  lemma DividesOne(d: int)
    requires d > 0 && Divides(d, 1)
    ensures d == 1
  {
    var k :| Times(k, d, 1);
    if k >= 1 {
      ProductMonotone(1, k, d);
    } else {
      ProductMonotone(k, 0, d);
    }
  }

  /** result := 1 / input modulo an odd mod; 0 for input 0. */
  method ModInv(result: array<word>, input: array<word>, mod: array<word>, n: nat)
    requires n > 0 && n <= result.Length && n <= input.Length && n <= mod.Length
    requires mod[0] % 2 == 1 && Val(mod[..n]) > 1
    modifies result
    ensures var x, m := old(Val(input[..n])), old(Val(mod[..n]));
            && (x == 0 ==> Val(result[..n]) == 0)
            && (x > 0 ==> Val(result[..n]) < m && ((Val(result[..n]) * x) % m == 1 <==> Coprime(x, m)))
    ensures result[n..] == old(result[n..])
  {
    var isZero := IsZero(input, n);
    if isZero {
      Clear(result, n);
      return;
    }
    var u := Loop(input, mod, n);
    Set(result, u, n);
    assert u[..] == u[..n];
  }

  /** The working copies and the loop, for a nonzero input. */
  method Loop(input: array<word>, mod: array<word>, n: nat) returns (u: array<word>)
    requires n > 0 && n <= input.Length && n <= mod.Length
    requires mod[0] % 2 == 1 && Val(mod[..n]) > 1 && Val(input[..n]) > 0
    ensures fresh(u) && u.Length == n && Val(u[..]) < Val(mod[..n])
    ensures (Val(u[..]) * Val(input[..n])) % Val(mod[..n]) == 1 <==> Coprime(Val(input[..n]), Val(mod[..n]))
  {
    ghost var x, m := Val(input[..n]), Val(mod[..n]);
    var a := Copy(input, n);
    var b := Copy(mod, n);
    u := One(n);
    var v := Zero(n);
    LowBit(mod[..n]);
    InvariantStart(x, m);
    var cmpResult := Compare(a, b, n);
    while cmpResult != 0
      invariant Invariant(Val(a[..]), Val(b[..]), Val(u[..]), Val(v[..]), x, m)
      invariant cmpResult == Sign(Val(a[..]) - Val(b[..]))
      decreases Val(a[..]) + Val(b[..])
    {
      Round(a, b, u, v, mod, n, cmpResult, x);
      cmpResult := Compare(a, b, n);
    }
    Finish(Val(a[..]), Val(u[..]), Val(v[..]), x, m);
  }

  method Copy(src: array<word>, n: nat) returns (a: array<word>)
    requires n <= src.Length
    ensures fresh(a) && a.Length == n && a[..] == src[..n]
  {
    a := new word[n];
    Set(a, src, n);
    assert a[..] == a[..n];
  }

  method Zero(n: nat) returns (a: array<word>)
    ensures fresh(a) && a.Length == n && Val(a[..]) == 0
  {
    a := new word[n];
    Clear(a, n);
    assert a[..] == a[..n];
  }

  method One(n: nat) returns (a: array<word>)
    requires n > 0
    ensures fresh(a) && a.Length == n && Val(a[..]) == 1
  {
    a := new word[n];
    Clear(a, n);
    a[0] := 1;
    assert a[..] == [a[0]] + a[1..];
    ValZeros(a[1..]);
  }

  function Sign(d: int): int {
    if d > 0 then 1 else if d < 0 then -1 else 0
  }

  method Compare(a: array<word>, b: array<word>, n: nat) returns (r: int)
    requires a.Length == n && b.Length == n
    ensures r == Sign(Val(a[..]) - Val(b[..]))
  {
    assert a[..n] == a[..] && b[..n] == b[..];
    r := CmpUnsafe(a, b, n);
  }

  /** The four branches of the loop body. */
  method Round(a: array<word>, b: array<word>, u: array<word>, v: array<word>, mod: array<word>, n: nat, cmpResult: int,
               ghost x: nat)
    requires n > 0 && a.Length == n && b.Length == n && u.Length == n && v.Length == n && n <= mod.Length
    requires a != b && a != u && a != v && b != u && b != v && u != v
    requires mod != a && mod != b && mod != u && mod != v
    requires mod[0] % 2 == 1
    requires Invariant(Val(a[..]), Val(b[..]), Val(u[..]), Val(v[..]), x, Val(mod[..n]))
    requires cmpResult == Sign(Val(a[..]) - Val(b[..])) != 0
    modifies a, b, u, v
    ensures Invariant(Val(a[..]), Val(b[..]), Val(u[..]), Val(v[..]), x, Val(mod[..n]))
    ensures Val(a[..]) + Val(b[..]) < old(Val(a[..])) + old(Val(b[..]))
  {
    LowBit(a[..]);
    LowBit(b[..]);
    ghost var m := Val(mod[..n]);
    if a[0] % 2 == 0 {
      HalvePair(a, b, u, v, mod, n, x);
    } else if b[0] % 2 == 0 {
      InvariantSwap(Val(a[..]), Val(b[..]), Val(u[..]), Val(v[..]), x, m);
      HalvePair(b, a, v, u, mod, n, x);
      InvariantSwap(Val(b[..]), Val(a[..]), Val(v[..]), Val(u[..]), x, m);
    } else if cmpResult > 0 {
      SubtractPair(a, b, u, v, mod, n, x);
    } else {
      InvariantSwap(Val(a[..]), Val(b[..]), Val(u[..]), Val(v[..]), x, m);
      SubtractPair(b, a, v, u, mod, n, x);
      InvariantSwap(Val(b[..]), Val(a[..]), Val(v[..]), Val(u[..]), x, m);
    }
  }

  /** The branches that halve an even value. */
  method HalvePair(a: array<word>, b: array<word>, u: array<word>, v: array<word>, mod: array<word>, n: nat,
                   ghost x: nat)
    requires n > 0 && a.Length == n && b.Length == n && u.Length == n && v.Length == n && n <= mod.Length
    requires a != b && a != u && a != v && u != b && u != v && a != mod && u != mod
    requires mod[0] % 2 == 1
    requires Invariant(Val(a[..]), Val(b[..]), Val(u[..]), Val(v[..]), x, Val(mod[..n]))
    requires Val(a[..]) % 2 == 0
    modifies a, u
    ensures Invariant(Val(a[..]), Val(b[..]), Val(u[..]), Val(v[..]), x, Val(mod[..n]))
    ensures Val(a[..]) < old(Val(a[..]))
  {
    ghost var a0, u0 := Val(a[..]), Val(u[..]);
    OneIsOdd(a0, Val(b[..]), u0, Val(v[..]), x, Val(mod[..n]));
    assert a[0..0 + n] == a[..];
    Rshift1(a, 0, n);
    assert a[0..0 + n] == a[..];
    Update(u, mod, n);
    HalveStep(a0, Val(b[..]), u0, Val(v[..]), Val(u[..]), x, Val(mod[..n]));
  }

  /** The branches that subtract the smaller odd value from the larger and halve the difference. */
  method SubtractPair(a: array<word>, b: array<word>, u: array<word>, v: array<word>, mod: array<word>, n: nat,
                      ghost x: nat)
    requires n > 0 && a.Length == n && b.Length == n && u.Length == n && v.Length == n && n <= mod.Length
    requires a != b && a != u && a != v && u != b && u != v && a != mod && u != mod
    requires mod[0] % 2 == 1
    requires Invariant(Val(a[..]), Val(b[..]), Val(u[..]), Val(v[..]), x, Val(mod[..n]))
    requires Val(a[..]) % 2 == 1 && Val(b[..]) % 2 == 1 && Val(a[..]) > Val(b[..])
    modifies a, u
    ensures Invariant(Val(a[..]), Val(b[..]), Val(u[..]), Val(v[..]), x, Val(mod[..n]))
    ensures Val(a[..]) < old(Val(a[..]))
  {
    ghost var a0, u0, d := Val(a[..]), Val(u[..]), Difference(Val(u[..]), Val(v[..]), Val(mod[..n]));
    HalveDifference(a, b, n);
    SubtractMod(u, v, mod, n);
    Update(u, mod, n);
    SubtractHalveStep(a0, Val(b[..]), u0, Val(v[..]), d, Val(u[..]), x, Val(mod[..n]));
  }

  /** a := (a - b) / 2. */
  method HalveDifference(a: array<word>, b: array<word>, n: nat)
    requires a.Length == n && b.Length == n && a != b && Val(a[..]) >= Val(b[..])
    modifies a
    ensures Val(a[..]) == (old(Val(a[..])) - Val(b[..])) / 2
  {
    ghost var difference := Val(a[..]) - Val(b[..]);
    assert a[..n] == a[..] && b[..n] == b[..];
    ghost var borrow := Sub(a, a, b, n);
    assert a[..n] == a[..] && a[0..0 + n] == a[..];
    ValBound(a[..]);
    NoBorrow(difference, Val(a[..]), borrow, Pow(n));
    Rshift1(a, 0, n);
    assert a[0..0 + n] == a[..];
  }

  lemma NoBorrow(x: int, y: int, borrow: int, p: int)
    requires x >= 0 && 0 <= y < p && y == x + borrow * p && 0 <= borrow <= 1
    ensures y == x
  {
  }

  /** uECC_vli_isZero; the accumulated `|` is zero exactly when every word is. */
  method IsZero(vli: array<word>, n: nat) returns (zero: bool)
    requires n <= vli.Length
    ensures zero <==> Val(vli[..n]) == 0
  {
    zero := true;
    for i := 0 to n
      invariant zero <==> Val(vli[..i]) == 0
    {
      assert vli[..i + 1] == vli[..i] + [vli[i]];
      ValSnoc(vli[..i], vli[i]);
      PowIsUp(i);
      if vli[i] != 0 {
        UpMonotone(1, vli[i], i);
        zero := false;
      }
    }
  }
}
