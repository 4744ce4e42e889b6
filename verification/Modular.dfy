/** Modular addition, subtraction and multiplication on top of the word routines. */
module Modular {
  import opened Arithmetic
  import opened Words
  import opened Multiply
  import opened Reduce
  import opened FastReduce

  /** result := (left + right) % mod for residues; the carry counts as an excess over mod. */
  method ModAdd(result: array<word>, left: array<word>, right: array<word>, mod: array<word>, n: nat)
    requires n <= result.Length && n <= left.Length && n <= right.Length && n <= mod.Length
    requires result != mod && Val(left[..n]) < Val(mod[..n]) && Val(right[..n]) < Val(mod[..n])
    modifies result
    ensures Val(result[..n]) == (old(Val(left[..n])) + old(Val(right[..n]))) % Val(mod[..n])
    ensures result[n..] == old(result[n..])
  {
    ghost var sum, m := Val(left[..n]) + Val(right[..n]), Val(mod[..n]);
    var carry := Add(result, left, right, n);
    ghost var before, borrow := Val(result[..n]), 0;
    ValBound(result[..n]);
    ValBound(mod[..n]);
    var cmp := CmpUnsafe(mod, result, n);
    if carry != 0 || cmp != 1 {
      borrow := Sub(result, result, mod, n);
      ValBound(result[..n]);
      SumInRange(sum, m, carry, before, borrow, Val(result[..n]), Pow(n));
    } else {
      DivModUnique(sum, m, 0, sum);
    }
  }

  lemma SumInRange(sum: int, m: int, carry: int, before: int, borrow: int, r: int, p: int)
    requires 0 <= sum < 2 * m && m < p && 0 <= carry <= 1 && 0 <= borrow <= 1
    requires before + carry * p == sum && 0 <= before < p && 0 <= r < p
    requires carry != 0 || before >= m
    requires r == before - m + borrow * p
    ensures r == sum % m
  {
    DivModUnique(sum, m, 1, sum - m);
  }

  /** result := (left - right) % mod for residues; the borrow cancels the carry of adding mod. */
  method ModSub(result: array<word>, left: array<word>, right: array<word>, mod: array<word>, n: nat)
    requires n <= result.Length && n <= left.Length && n <= right.Length && n <= mod.Length
    requires result != mod && Val(left[..n]) < Val(mod[..n]) && Val(right[..n]) < Val(mod[..n])
    modifies result
    ensures Val(result[..n]) == (old(Val(left[..n])) - old(Val(right[..n]))) % Val(mod[..n])
    ensures result[n..] == old(result[n..])
  {
    ghost var d: int, m := Val(left[..n]) - Val(right[..n]), Val(mod[..n]);
    var borrow := Sub(result, left, right, n);
    ghost var before, carry := Val(result[..n]), 0;
    ValBound(result[..n]);
    ValBound(mod[..n]);
    if borrow != 0 {
      carry := Add(result, result, mod, n);
      ValBound(result[..n]);
    }
    DifferenceInRange(d, m, before, borrow, carry, Val(result[..n]), Pow(n));
  }

  lemma DifferenceInRange(d: int, m: int, before: int, borrow: int, carry: int, r: int, p: int)
    requires -m < d < m < p && 0 <= borrow <= 1 && 0 <= carry <= 1
    requires before == d + borrow * p && 0 <= before < p && 0 <= r < p
    requires r + carry * p == before + (if borrow != 0 then m else 0)
    ensures r == d % m
  {
    DivModUnique(d, m, -borrow, d + borrow * m);
  }

  /** result := (left * right) % mod */
  method ModMult(result: array<word>, left: array<word>, right: array<word>, mod: array<word>, n: nat)
    requires 0 < n < 128 && n <= result.Length && n <= left.Length && n <= right.Length && n <= mod.Length
    requires mod[n - 1] != 0
    modifies result
    ensures old(Val(mod[..n])) > 0
    ensures Val(result[..n]) == (old(Val(left[..n])) * old(Val(right[..n]))) % old(Val(mod[..n]))
  {
    var product := new word[2 * n];
    Mult(product, left, right, n);
    assert product[..2 * n] == product[..];
    Mmod(result, product, mod, n);
  }

  /** The same product with either reduction the build may select for the curve prime. */
  method ModMultFast(result: array<word>, left: array<word>, right: array<word>, prime: array<word>, optimized: bool)
    requires result.Length >= 4 && left.Length >= 4 && right.Length >= 4 && prime.Length == 4
    requires result != prime && Val(prime[..]) == P256
    modifies result
    ensures Val(result[..4]) == (old(Val(left[..4])) * old(Val(right[..4]))) % P256
  {
    var product := new word[8];
    Mult(product, left, right, 4);
    assert product[..8] == product[..] && prime[..4] == prime[..];
    PrimeTopWord(prime[..]);
    if optimized {
      MmodFast(result, product, prime);
    } else {
      Mmod(result, product, prime, 4);
    }
  }
}
