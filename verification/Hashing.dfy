/** Streaming SHA-256 and SHA-512 against the padded messages of FIPS 180-4, over any compression function. */
module Hashing {
  import opened Arithmetic
  import opened Bits
  import opened Limbs
  import opened Words

  datatype Algorithm<!S> = Algorithm(start: S, compress: (S, seq<byte>) -> S, output: S -> seq<byte>)

  /** The state after the whole blocks of m; an incomplete block at the end does not count. */
  function Compressed<S>(a: Algorithm<S>, s: S, m: seq<byte>, block: nat): S
    requires block > 0
    decreases |m|
  {
    if |m| < block then s else Compressed(a, a.compress(s, m[..block]), m[block..], block)
  }

  /** x in n bytes, most significant first. */
  function BigEndian(x: nat, n: nat): (s: seq<byte>)
    ensures |s| == n
  {
    if n == 0 then [] else BigEndian(x / 256, n - 1) + [x % 256]
  }

  function Zeros(n: nat): seq<byte> {
    seq(n, _ => 0)
  }

  /** The number of zero bytes between the marker and the length field. */
  function ZeroCount(size: nat, block: nat, field: nat): nat
    requires block > 0
  {
    var past := (size + 1 + field) % block;
    if past == 0 then 0 else block - past
  }

  /** Sections 5.1.1 and 5.1.2 of FIPS 180-4: marker, the fewest zeros, and the length in bits. */
  function Padded(m: seq<byte>, bits: nat, block: nat, field: nat): seq<byte>
    requires block > 0
  {
    m + [0x80] + Zeros(ZeroCount(|m|, block, field)) + BigEndian(bits, field)
  }

  /** The hash of m by the standard. */
  function Hash<S>(a: Algorithm<S>, m: seq<byte>, block: nat, field: nat): seq<byte>
    requires block > 0
  {
    a.output(Compressed(a, a.start, Padded(m, 8 * |m|, block, field), block))
  }

  lemma ZeroCountFills(size: nat, block: nat, field: nat)
    requires block > 0
    ensures (size + 1 + ZeroCount(size, block, field) + field) % block == 0
  {
    var t, z := size + 1 + field, ZeroCount(size, block, field);
    var q := t / block;
    if t % block == 0 {
      DivModUnique(t + z, block, q, 0);
    } else {
      Distribute(q, 1, block);
      DivModUnique(t + z, block, q + 1, 0);
    }
  }

  /** No smaller number of zeros completes a block. */
  lemma ZeroCountIsLeast(size: nat, block: nat, field: nat, k: nat)
    requires block > 0 && k < ZeroCount(size, block, field)
    ensures (size + 1 + k + field) % block != 0
  {
    var t := size + 1 + field;
    DivModUnique(t + k, block, t / block, t % block + k);
  }

  /** Byte i counted from the end is the byte at bit 8 * i. */
  lemma {:induction false} BigEndianByte(x: nat, n: nat, i: nat)
    requires i < n
    ensures |BigEndian(x, n)| == n && BigEndian(x, n)[n - 1 - i] == Shr(x, 8 * i) % 256
  {
    if i > 0 {
      // a variable, because the verifier unrolls a recursive function that is applied to a literal
      var k: nat :| k == 8;
      BigEndianByte(x / 256, n - 1, i - 1);
      ShrBy8(x, 0);
      ShrShr(x, k, 8 * (i - 1));
      assert 8 * i == k + 8 * (i - 1);
    }
  }

  /** A wider field only adds zeros in front. */
  lemma {:induction false} BigEndianWide(x: nat, n: nat, k: nat)
    requires x < Dbl(1, 8 * n)
    ensures BigEndian(x, n + k) == Zeros(k) + BigEndian(x, n)
  {
    if n > 0 {
      DblBy8(1, 8 * (n - 1));
      BigEndianWide(x / 256, n - 1, k);
    } else {
      BigEndianZero(k);
    }
  }

  lemma {:induction false} BigEndianZero(k: nat)
    ensures BigEndian(0, k) == Zeros(k)
  {
    if k > 0 {
      BigEndianZero(k - 1);
    }
  }

  /** The field determines every number that fits it. */
  lemma {:induction false} BigEndianInjective(x: nat, y: nat, n: nat)
    requires x < Dbl(1, 8 * n) && y < Dbl(1, 8 * n) && BigEndian(x, n) == BigEndian(y, n)
    ensures x == y
  {
    if n > 0 {
      DblBy8(1, 8 * (n - 1));
      assert BigEndian(x, n)[n - 1] == BigEndian(y, n)[n - 1];
      assert BigEndian(x, n)[..n - 1] == BigEndian(x / 256, n - 1)
          && BigEndian(y, n)[..n - 1] == BigEndian(y / 256, n - 1);
      BigEndianInjective(x / 256, y / 256, n - 1);
    }
  }

  lemma {:induction false} CompressedAppend<S>(a: Algorithm<S>, s: S, m: seq<byte>, t: seq<byte>, block: nat)
    requires block > 0 && |m| % block == 0
    ensures Compressed(a, s, m + t, block) == Compressed(a, Compressed(a, s, m, block), t, block)
    decreases |m|
  {
    if |m| == 0 {
      assert m + t == t;
    } else {
      WholeBlock(|m|, block);
      assert (m + t)[..block] == m[..block] && (m + t)[block..] == m[block..] + t;
      CompressedAppend(a, a.compress(s, m[..block]), m[block..], t, block);
    }
  }

  lemma WholeBlock(x: nat, block: nat)
    requires block > 0 && x > 0 && x % block == 0
    ensures x >= block && (x - block) % block == 0
  {
    ProductAtLeast(x / block, block);
    Distribute(x / block, -1, block);
    DivModUnique(x - block, block, x / block - 1, 0);
  }

  /** Compressing one more block. */
  lemma OneMoreBlock<S>(a: Algorithm<S>, s: S, m: seq<byte>, t: seq<byte>, block: nat)
    requires block > 0 && |m| % block == 0 && |t| == block
    ensures Compressed(a, s, m + t, block) == a.compress(Compressed(a, s, m, block), t)
    ensures |m + t| % block == 0
  {
    CompressedAppend(a, s, m, t, block);
    assert t[..block] == t;
    assert |t[block..]| == 0;
    Distribute(|m| / block, 1, block);
    DivModUnique(|m| + block, block, |m| / block + 1, 0);
  }

  /** The bit length of n bytes in a 64-bit counter. */
  function Counter(n: nat): word {
    8 * n % 0x1_0000_0000_0000_0000
  }

  lemma CounterAdd(m: nat, n: nat)
    ensures Counter(0) == 0
    ensures Counter(m + n) == (Counter(m) + Counter(n)) % BASE
  {
    var r := Counter(m) + Counter(n);
    DivModUnique(8 * (m + n), BASE, 8 * m / BASE + 8 * n / BASE + r / BASE, r % BASE);
  }

  /** One more block of 128 bytes. */
  lemma CounterBlock(m: nat)
    ensures Counter(m + 128) == (Counter(m) + 128 * 8) % BASE
  {
    CounterAdd(m, 128);
    assert Counter(128) == 1024;
  }

  /** A message below 2^64 bits is counted exactly. */
  lemma CounterExact(n: nat)
    requires 8 * n < BASE
    ensures Counter(n) == 8 * n
  {
  }

  /** The loop that adds zeros one by one stops at the least count. */
  lemma StopsAtField(size: nat, k: nat, whole: nat, buffered: nat)
    requires k <= ZeroCount(size, 64, 8)
    requires size + 1 + k == whole + buffered && whole % 64 == 0 && buffered < 64
    ensures buffered == 56 <==> k == ZeroCount(size, 64, 8)
  {
    ZerosTo64(size);
    DivModUnique(whole + buffered, 64, whole / 64, buffered);
  }

  lemma ZerosTo64(size: nat)
    ensures ZeroCount(size, 64, 8) == if size % 64 <= 55 then 55 - size % 64 else 119 - size % 64
  {
    var past := (size + 9) % 64;
    assert ZeroCount(size, 64, 8) == if past == 0 then 0 else 64 - past;
  }

  function Concat(pieces: seq<seq<byte>>): seq<byte> {
    if |pieces| == 0 then [] else Concat(pieces[..|pieces| - 1]) + pieces[|pieces| - 1]
  }

  lemma ConcatNext(pieces: seq<seq<byte>>, i: nat)
    requires i < |pieces|
    ensures Concat(pieces[..i + 1]) == Concat(pieces[..i]) + pieces[i]
  {
    assert pieces[..i + 1][..i] == pieces[..i];
  }

  /** A 64-bit count in a 16-byte field is what the standard asks for exactly when it has not wrapped. */
  lemma CountedExactly(m: seq<byte>)
    requires 8 * |m| < Dbl(1, 128)
    ensures Padded(m, Counter(|m|), 128, 16) == Padded(m, 8 * |m|, 128, 16) <==> 8 * |m| < BASE
  {
    var head := m + [0x80] + Zeros(ZeroCount(|m|, 128, 16));
    if Padded(m, Counter(|m|), 128, 16) == Padded(m, 8 * |m|, 128, 16) {
      assert Padded(m, Counter(|m|), 128, 16)[|head|..] == BigEndian(Counter(|m|), 16);
      assert Padded(m, 8 * |m|, 128, 16)[|head|..] == BigEndian(8 * |m|, 16);
      Dbl64(1);
      DblDbl(1, 64, 64);
      DblPositive(64);
      DblMonotone(1, Dbl(1, 64), 64);
      BigEndianInjective(Counter(|m|), 8 * |m|, 16);
    } else if 8 * |m| < BASE {
      CounterExact(|m|);
    }
  }
}
