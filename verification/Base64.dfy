/** The base64url encoder and the strict decoder. */
module Base64 {
  import opened Arithmetic
  import opened Limbs
  import opened Outcomes

  type sextet = x: int | 0 <= x < 64

  // ---- the alphabet ----

  /** Entry v of the alphabet. */
  function Letter(v: sextet): (c: char)
    ensures InAlphabet(c)
  {
    if v < 26 then 'A' + v as char
    else if v < 52 then 'a' + (v - 26) as char
    else if v < 62 then '0' + (v - 52) as char
    else if v == 62 then '-' else '_'
  }

  predicate InAlphabet(c: char) {
    'A' <= c <= 'Z' || 'a' <= c <= 'z' || '0' <= c <= '9' || c == '-' || c == '_'
  }

  predicate Readable(s: string) {
    forall i | 0 <= i < |s| :: InAlphabet(s[i])
  }

  /** The value the decoder gives a character of the alphabet. */
  function ValueOf(c: char): (v: sextet)
    requires InAlphabet(c)
    ensures Letter(v) == c
  {
    if 'A' <= c <= 'Z' then c as int - 'A' as int
    else if 'a' <= c <= 'z' then c as int - 'a' as int + 26
    else if '0' <= c <= '9' then c as int - '0' as int + 52
    else if c == '-' then 62 else 63
  }

  lemma LetterHasValue(v: sextet)
    ensures ValueOf(Letter(v)) == v
  {
  }

  // ---- encoding ----

  /** Four characters for three bytes. */
  function Quad(x: byte, y: byte, z: byte): string {
    [Letter(x / 4), Letter(x % 4 * 16 + y / 16), Letter(y % 16 * 4 + z / 64), Letter(z % 64)]
  }

  /** The four characters are the digits of the three bytes in base 64, the most significant first. */
  lemma QuadDigits(x: byte, y: byte, z: byte)
    ensures var q := Quad(x, y, z);
            && |q| == 4 && Readable(q)
            && ((ValueOf(q[0]) * 64 + ValueOf(q[1])) * 64 + ValueOf(q[2])) * 64 + ValueOf(q[3])
               == x * 65536 + y * 256 + z
  {
    LetterHasValue(x / 4);
    LetterHasValue(x % 4 * 16 + y / 16);
    LetterHasValue(y % 16 * 4 + z / 64);
    LetterHasValue(z % 64);
  }

  /** The base64url form without padding: whole groups of three bytes, then one or two left over. */
  function Encode(data: seq<byte>): string {
    if |data| == 0 then []
    else if |data| == 1 then Quad(data[0], 0, 0)[..2]
    else if |data| == 2 then Quad(data[0], data[1], 0)[..3]
    else Quad(data[0], data[1], data[2]) + Encode(data[3..])
  }

  lemma {:induction false} EncodeAppend(s: seq<byte>, t: seq<byte>)
    requires |s| % 3 == 0
    ensures Encode(s + t) == Encode(s) + Encode(t)
  {
    if |s| == 0 {
      assert s + t == t;
    } else {
      assert (s + t)[3..] == s[3..] + t;
      EncodeAppend(s[3..], t);
    }
  }

  /** The characters cut out of 24 bits. */
  lemma Cut(x: byte, y: byte, z: byte)
    ensures var triple := x * 65536 + y * 256 + z;
            triple / 262144 % 64 == x / 4 && triple / 4096 % 64 == x % 4 * 16 + y / 16
            && triple / 64 % 64 == y % 16 * 4 + z / 64 && triple % 64 == z % 64
  {
    var triple := x * 65536 + y * 256 + z;
    DivModUnique(triple, 262144, x / 4, x % 4 * 65536 + y * 256 + z);
    DivModUnique(triple, 4096, x * 16 + y / 16, y % 16 * 256 + z);
    DivModUnique(x * 16 + y / 16, 64, x / 4, x % 4 * 16 + y / 16);
    DivModUnique(triple, 64, x * 1024 + y * 4 + z / 64, z % 64);
    DivModUnique(x * 1024 + y * 4 + z / 64, 64, x * 16 + y / 16, y % 16 * 4 + z / 64);
  }

  method Base64Url(data: seq<byte>) returns (result: string)
    ensures result == Encode(data)
  {
    result := [];
    var position := 0;
    while position + 3 <= |data|
      invariant 0 <= position <= |data| && position % 3 == 0
      invariant result == Encode(data[..position])
    {
      var triple := Word24(data[position], data[position + 1], data[position + 2]);
      var quad := [Letter(triple / 262144 % 64), Letter(triple / 4096 % 64), Letter(triple / 64 % 64),
                   Letter(triple % 64)];
      OneMoreGroup(data, position, quad);
      result := result + quad;
      position := position + 3;
    }
    Remainder(data, position);
    var remaining := |data| - position;
    if remaining == 1 {
      var pair := Word24(data[position], 0, 0);
      result := result + [Letter(pair / 262144 % 64), Letter(pair / 4096 % 64)];
    } else if remaining == 2 {
      var pair := Word24(data[position], data[position + 1], 0);
      result := result + [Letter(pair / 262144 % 64), Letter(pair / 4096 % 64), Letter(pair / 64 % 64)];
    }
  }

  /** Three bytes in 24 bits. */
  function Word24(x: byte, y: byte, z: byte): (w: int)
    ensures w / 262144 % 64 == x / 4 && w / 4096 % 64 == x % 4 * 16 + y / 16
    ensures w / 64 % 64 == y % 16 * 4 + z / 64 && w % 64 == z % 64
  {
    Cut(x, y, z);
    x * 65536 + y * 256 + z
  }

  /** What is left after the whole groups. */
  lemma Remainder(data: seq<byte>, position: nat)
    requires position <= |data| < position + 3 && position % 3 == 0
    ensures Encode(data) == Encode(data[..position])
                            + (if |data| == position then []
                               else if |data| == position + 1 then Quad(data[position], 0, 0)[..2]
                               else Quad(data[position], data[position + 1], 0)[..3])
  {
    assert data == data[..position] + data[position..];
    EncodeAppend(data[..position], data[position..]);
  }

  lemma OneMoreGroup(data: seq<byte>, position: nat, quad: string)
    requires position + 3 <= |data| && position % 3 == 0
    requires quad == Quad(data[position], data[position + 1], data[position + 2])
    ensures Encode(data[..position + 3]) == Encode(data[..position]) + quad
  {
    var group := data[position..position + 3];
    assert data[..position + 3] == data[..position] + group;
    EncodeAppend(data[..position], group);
    assert group[3..] == [];
  }

  // ---- decoding ----

  /** The lowest `bits` bits, for the numbers of bits that can be pending. */
  function Low(group: nat, bits: nat): nat {
    if bits == 0 then 0 else if bits == 2 then group % 4 else if bits == 4 then group % 16 else group % 64
  }

  /** The byte above the lowest `bits` bits. */
  function Middle(group: nat, bits: nat): byte {
    if bits == 0 then group % 256 else if bits == 2 then group / 4 % 256 else group / 16 % 256
  }

  /** The bytes still to come, with `bits` pending bits of value `low`. */
  function Rest(low: nat, bits: nat, s: string): seq<byte>
    requires bits in {0, 2, 4, 6}
    requires Readable(s)
    decreases |s|
  {
    if |s| == 0 then []
    else
      var group := low * 64 + ValueOf(s[0]);
      if bits == 0 then Rest(group, 6, s[1..])
      else [Middle(group, bits - 2)] + Rest(Low(group, bits - 2), bits - 2, s[1..])
  }

  /** The decoder's output on characters of the alphabet, before the checks on the result. */
  function Decode(s: string): seq<byte>
    requires Readable(s)
  {
    Rest(0, 0, s)
  }

  lemma {:induction false} EncodeInAlphabet(data: seq<byte>)
    ensures Readable(Encode(data))
    ensures |Encode(data)| == (8 * |data| + 5) / 6
  {
    if |data| >= 3 {
      EncodeInAlphabet(data[3..]);
      assert |Encode(data)| == 4 + |Encode(data[3..])|;
    }
  }

  /** Decoding what was encoded gives the bytes back. */
  lemma {:induction false} DecodeEncode(data: seq<byte>)
    ensures Readable(Encode(data))
    ensures Decode(Encode(data)) == data
  {
    EncodeInAlphabet(data);
    if |data| == 1 {
      DecodeOne(data[0]);
      assert data == [data[0]];
    } else if |data| == 2 {
      DecodeTwo(data[0], data[1]);
      assert data == [data[0], data[1]];
    } else if |data| > 2 {
      EncodeInAlphabet(data[3..]);
      DecodeEncode(data[3..]);
      DecodeGroup(data[0], data[1], data[2], Encode(data[3..]));
      assert data == [data[0], data[1], data[2]] + data[3..];
    }
  }

  /** Two characters for one byte left over. */
  lemma DecodeOne(x: byte)
    ensures Decode(Quad(x, 0, 0)[..2]) == [x]
  {
    var s := Quad(x, 0, 0)[..2];
    FirstByte(x, 0, s);
    assert s[2..] == [];
  }

  /** Three characters for two bytes left over. */
  lemma DecodeTwo(x: byte, y: byte)
    ensures Decode(Quad(x, y, 0)[..3]) == [x, y]
  {
    var s := Quad(x, y, 0)[..3];
    FirstByte(x, y, s);
    SecondByte(y, 0, s[2..]);
    assert s[2..][1..] == [];
  }

  /** A whole group in front of anything. */
  lemma DecodeGroup(x: byte, y: byte, z: byte, rest: string)
    requires Readable(rest)
    ensures Readable(Quad(x, y, z) + rest)
    ensures Decode(Quad(x, y, z) + rest) == [x, y, z] + Decode(rest)
  {
    var s := Quad(x, y, z) + rest;
    FirstByte(x, y, s);
    SecondByte(y, z, s[2..]);
    assert s[2..][1..] == s[3..] && s[3..][1..] == rest;
    ThirdByte(z, s[3..]);
    calc {
      Decode(s);
      [x] + ([y] + ([z] + Decode(rest)));
      [x, y, z] + Decode(rest);
    }
  }

  /** The first two characters give byte x and the upper half of y. */
  lemma FirstByte(x: byte, y: byte, s: string)
    requires Readable(s) && |s| >= 2 && s[0] == Letter(x / 4) && s[1] == Letter(x % 4 * 16 + y / 16)
    ensures Decode(s) == [x] + Rest(y / 16, 4, s[2..])
  {
    LetterHasValue(x / 4);
    LetterHasValue(x % 4 * 16 + y / 16);
    assert s[1..][0] == s[1] && s[1..][1..] == s[2..];
    var group := x / 4 * 64 + (x % 4 * 16 + y / 16);
    Joined(x, y / 16);
    assert Decode(s) == Rest(x / 4, 6, s[1..]);
    assert Rest(x / 4, 6, s[1..]) == [Middle(group, 4)] + Rest(Low(group, 4), 4, s[1..][1..]);
  }

  lemma Joined(x: byte, top: nat)
    requires top < 16
    ensures var group := x / 4 * 64 + (x % 4 * 16 + top); Middle(group, 4) == x && Low(group, 4) == top
  {
    DivModUnique(x / 4 * 64 + (x % 4 * 16 + top), 16, x, top);
  }

  /** The third character completes y. */
  lemma SecondByte(y: byte, z: byte, s: string)
    requires Readable(s) && |s| >= 1 && s[0] == Letter(y % 16 * 4 + z / 64)
    ensures Rest(y / 16, 4, s) == [y] + Rest(z / 64, 2, s[1..])
  {
    LetterHasValue(y % 16 * 4 + z / 64);
    Rejoin(y, z / 64);
  }

  lemma Rejoin(y: byte, top: int)
    requires 0 <= top < 4
    ensures var group := y / 16 * 64 + (y % 16 * 4 + top); Middle(group, 2) == y && Low(group, 2) == top
  {
    assert y / 16 * 64 + (y % 16 * 4 + top) == y * 4 + top;
  }

  /** The fourth character completes z. */
  lemma ThirdByte(z: byte, s: string)
    requires Readable(s) && |s| >= 1 && s[0] == Letter(z % 64)
    ensures Rest(z / 64, 2, s) == [z] + Decode(s[1..])
  {
    LetterHasValue(z % 64);
    var group := z / 64 * 64 + z % 64;
    assert Middle(group, 0) == z && Low(group, 0) == 0;
  }

  lemma EncodeInjective(s: seq<byte>, t: seq<byte>)
    requires Encode(s) == Encode(t)
    ensures s == t
  {
    DecodeEncode(s);
    DecodeEncode(t);
  }

  /** Succeeds exactly on encodings of nonempty byte strings, of the expected size unless that is zero. */
  method Unb64(input: string, expected: nat, failure: Failure) returns (r: Result<seq<byte>>)
    ensures r.Ok? ==> r.value != [] && Encode(r.value) == input && (expected == 0 || |r.value| == expected)
    ensures forall data: seq<byte> | data != [] && Encode(data) == input && (expected == 0 || |data| == expected) ::
            r == Ok(data)
    ensures r.Err? ==> r.failure == failure
  {
    EncodeInAlphabet([]);
    forall data: seq<byte> | Encode(data) == input
      ensures Readable(input) && Decode(input) == data
    {
      DecodeEncode(data);
    }
    if |input| == 0 || !Readable(input) {
      return Err(failure);
    }
    var result := Collect(input);
    var again := Base64Url(result);
    if (expected != 0 && |result| != expected) || again != input {
      return Err(failure);
    }
    return Ok(result);
  }

  /** The loop of the decoder. */
  method Collect(input: string) returns (result: seq<byte>)
    requires Readable(input)
    ensures result == Decode(input)
  {
    result := [];
    var group: int, groupBits, i := 0, 0, 0;
    ghost var rest := input;
    while i < |input|
      invariant 0 <= i <= |input| && groupBits in {0, 2, 4, 6} && 0 <= group < 0x1_0000_0000
      invariant rest == input[i..]
      invariant result + Rest(Low(group, groupBits), groupBits, rest) == Decode(input)
    {
      var out;
      group, groupBits, out, rest := Step(group, groupBits, input[i], rest);
      result := result + out;
      i := i + 1;
    }
  }

  /** One round of the loop. */
  method Step(group: int, groupBits: int, c: char, ghost rest: string)
    returns (next: int, bits: int, out: seq<byte>, ghost after: string)
    requires groupBits in {0, 2, 4, 6} && 0 <= group < 0x1_0000_0000
    requires Readable(rest) && |rest| > 0 && c == rest[0]
    ensures bits in {0, 2, 4, 6} && 0 <= next < 0x1_0000_0000 && after == rest[1..]
    ensures out + Rest(Low(next, bits), bits, after) == Rest(Low(group, groupBits), groupBits, rest)
  {
    next, bits, out := Shift(group, groupBits, ValueOf(c));
    after := rest[1..];
  }

  /** One character: the 32-bit group wraps, but the bits above the pending ones are never used. */
  method Shift(group: int, groupBits: int, value: sextet) returns (next: int, bits: int, out: seq<byte>)
    requires groupBits in {0, 2, 4, 6} && 0 <= group < 0x1_0000_0000
    ensures 0 <= next < 0x1_0000_0000
    ensures var full := Low(group, groupBits) * 64 + value;
            if groupBits == 0 then bits == 6 && out == [] && Low(next, 6) == full
            else bits == groupBits - 2 && out == [Middle(full, bits)] && Low(next, bits) == Low(full, bits)
  {
    Wrap(group);
    next := group * 64 % 0x1_0000_0000 + value;
    bits := groupBits + 6;
    out := [];
    Pending(group % 0x400_0000, value);
    if bits >= 8 {
      bits := bits - 8;
      out := [Middle(next, bits)];
    }
  }

  lemma Wrap(group: nat)
    ensures group * 64 % 0x1_0000_0000 == group % 0x400_0000 * 64
    ensures group % 0x400_0000 % 4 == group % 4 && group % 0x400_0000 % 16 == group % 16
    ensures group % 0x400_0000 % 64 == group % 64
  {
    var l, h := group % 0x400_0000, group / 0x400_0000;
    DivModUnique(group * 64, 0x1_0000_0000, h, l * 64);
    DivModUnique(group, 64, h * 0x10_0000 + l / 64, l % 64);
    DivModUnique(group, 16, h * 0x40_0000 + l / 16, l % 16);
    DivModUnique(group, 4, h * 0x100_0000 + l / 4, l % 4);
  }

  /** The next byte depends on the pending bits alone. */
  lemma Pending(l: nat, v: sextet)
    ensures (l * 64 + v) % 64 == v
    ensures (l * 64 + v) % 256 == (l % 4 * 64 + v) % 256
    ensures (l * 64 + v) / 4 % 256 == (l % 16 * 64 + v) / 4 % 256 && (l * 64 + v) % 4 == (l % 16 * 64 + v) % 4
    ensures (l * 64 + v) / 16 % 256 == (l % 64 * 64 + v) / 16 % 256 && (l * 64 + v) % 16 == (l % 64 * 64 + v) % 16
  {
    Shifted2(l, v);
    Shifted4(l, v);
    Shifted6(l, v);
  }

  lemma Shifted2(l: nat, v: sextet)
    ensures (l * 64 + v) % 64 == v
    ensures (l * 64 + v) % 256 == (l % 4 * 64 + v) % 256
  {
    var b := l % 4 * 64 + v;
    DivModUnique(l * 64 + v, 64, l, v);
    DivModUnique(l * 64 + v, 256, l / 4, b);
  }

  lemma Shifted4(l: nat, v: sextet)
    ensures (l * 64 + v) / 4 % 256 == (l % 16 * 64 + v) / 4 % 256 && (l * 64 + v) % 4 == (l % 16 * 64 + v) % 4
  {
    var b := l % 16 * 64 + v;
    DivModUnique(l * 64 + v, 4, l / 16 * 256 + b / 4, b % 4);
    DivModUnique(l / 16 * 256 + b / 4, 256, l / 16, b / 4);
  }

  lemma Shifted6(l: nat, v: sextet)
    ensures (l * 64 + v) / 16 % 256 == (l % 64 * 64 + v) / 16 % 256 && (l * 64 + v) % 16 == (l % 64 * 64 + v) % 16
  {
    var b := l % 64 * 64 + v;
    DivModUnique(l * 64 + v, 16, l / 64 * 256 + b / 16, b % 16);
    DivModUnique(l / 64 * 256 + b / 16, 256, l / 64, b / 16);
  }
}
