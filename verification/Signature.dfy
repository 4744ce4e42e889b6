/** The strict Ed25519 signature check: canonical scalar, strict points, and the verification equation. */
module Signature {
  import opened Limbs
  import opened Group
  import opened Outcomes
  import Scalar
  import Field
  import Sliding

  /** Byte i of the order of the base point, little endian. */
  function OrderByte(i: nat): byte {
    match i
    case 0 => 0xed
    case 1 => 0xd3
    case 2 => 0xf5
    case 3 => 0x5c
    case 4 => 0x1a
    case 5 => 0x63
    case 6 => 0x12
    case 7 => 0x58
    case 8 => 0xd6
    case 9 => 0x9c
    case 10 => 0xf7
    case 11 => 0xa2
    case 12 => 0xde
    case 13 => 0xf9
    case 14 => 0xde
    case 15 => 0x14
    case 31 => 0x10
    case _ => 0
  }

  const GROUP_ORDER: seq<byte> := seq(32, i requires 0 <= i < 32 => OrderByte(i))

  /** Byte i of 2^255 - 19, little endian. */
  function PrimeByte(i: nat): byte {
    match i
    case 0 => 0xed
    case 31 => 0x7f
    case _ => 0xff
  }

  const FIELD_PRIME: seq<byte> := seq(32, i requires 0 <= i < 32 => PrimeByte(i))

  /** The y coordinates of the points of small order. */
  const SMALL_ORDER_Y: seq<seq<byte>> := [
    [0x00, 0x00, 0x00, 0x00, 0x00, 0x00, 0x00, 0x00, 0x00, 0x00, 0x00, 0x00, 0x00, 0x00, 0x00, 0x00,
     0x00, 0x00, 0x00, 0x00, 0x00, 0x00, 0x00, 0x00, 0x00, 0x00, 0x00, 0x00, 0x00, 0x00, 0x00, 0x00],
    [0x01, 0x00, 0x00, 0x00, 0x00, 0x00, 0x00, 0x00, 0x00, 0x00, 0x00, 0x00, 0x00, 0x00, 0x00, 0x00,
     0x00, 0x00, 0x00, 0x00, 0x00, 0x00, 0x00, 0x00, 0x00, 0x00, 0x00, 0x00, 0x00, 0x00, 0x00, 0x00],
    [0x26, 0xe8, 0x95, 0x8f, 0xc2, 0xb2, 0x27, 0xb0, 0x45, 0xc3, 0xf4, 0x89, 0xf2, 0xef, 0x98, 0xf0,
     0xd5, 0xdf, 0xac, 0x05, 0xd3, 0xc6, 0x33, 0x39, 0xb1, 0x38, 0x02, 0x88, 0x6d, 0x53, 0xfc, 0x05],
    [0xc7, 0x17, 0x6a, 0x70, 0x3d, 0x4d, 0xd8, 0x4f, 0xba, 0x3c, 0x0b, 0x76, 0x0d, 0x10, 0x67, 0x0f,
     0x2a, 0x20, 0x53, 0xfa, 0x2c, 0x39, 0xcc, 0xc6, 0x4e, 0xc7, 0xfd, 0x77, 0x92, 0xac, 0x03, 0x7a],
    [0xec, 0xff, 0xff, 0xff, 0xff, 0xff, 0xff, 0xff, 0xff, 0xff, 0xff, 0xff, 0xff, 0xff, 0xff, 0xff,
     0xff, 0xff, 0xff, 0xff, 0xff, 0xff, 0xff, 0xff, 0xff, 0xff, 0xff, 0xff, 0xff, 0xff, 0xff, 0x7f]
  ]

  lemma OrderWords()
    ensures Load4(GROUP_ORDER, 0) == 0x5cf5d3ed && Load4(GROUP_ORDER, 4) == 0x5812631a
    ensures Load4(GROUP_ORDER, 8) == 0xa2f79cd6 && Load4(GROUP_ORDER, 12) == 0x14def9de
    ensures Load4(GROUP_ORDER, 16) == 0x0 && Load4(GROUP_ORDER, 20) == 0x0
    ensures Load4(GROUP_ORDER, 24) == 0x0 && Load4(GROUP_ORDER, 28) == 0x10000000
  {
  }

  lemma OrderBytes()
    ensures Bytes(GROUP_ORDER) == Scalar.ORDER
  {
    OrderWords();
    ByWords(GROUP_ORDER);
  }

  lemma PrimeWords()
    ensures Load4(FIELD_PRIME, 0) == 0xffffffed && Load4(FIELD_PRIME, 4) == 0xffffffff
    ensures Load4(FIELD_PRIME, 8) == 0xffffffff && Load4(FIELD_PRIME, 12) == 0xffffffff
    ensures Load4(FIELD_PRIME, 16) == 0xffffffff && Load4(FIELD_PRIME, 20) == 0xffffffff
    ensures Load4(FIELD_PRIME, 24) == 0xffffffff && Load4(FIELD_PRIME, 28) == 0x7fffffff
  {
  }

  lemma PrimeBytes()
    ensures Bytes(FIELD_PRIME) == Field.P
  {
    PrimeWords();
    ByWords(FIELD_PRIME);
  }

  /** Compares from the most significant byte down. */
  method LittleEndianLess(value: seq<byte>, limit: seq<byte>) returns (less: bool)
    requires |value| == |limit|
    ensures less <==> Bytes(value) < Bytes(limit)
  {
    var i := |limit|;
    while i > 0
      invariant 0 <= i <= |limit|
      invariant value[i..] == limit[i..]
    {
      i := i - 1;
      TopByteDecides(value, limit, i);
      if value[i] < limit[i] {
        return true;
      }
      if value[i] > limit[i] {
        return false;
      }
    }
    assert value == value[0..] && limit == limit[0..];
    return false;
  }

  /** With the bytes above i equal, byte i decides unless it is equal too. */
  lemma TopByteDecides(s: seq<byte>, t: seq<byte>, i: nat)
    requires |s| == |t| && i < |s| && s[i + 1..] == t[i + 1..]
    ensures s[i] < t[i] ==> Bytes(s) < Bytes(t)
    ensures s[i] > t[i] ==> Bytes(s) > Bytes(t)
    ensures s[i] == t[i] ==> s[i..] == t[i..]
  {
    if s[i] < t[i] {
      SmallerTop(s, t, i);
    } else if s[i] > t[i] {
      SmallerTop(t, s, i);
    } else {
      assert s[i..] == [s[i]] + s[i + 1..] && t[i..] == [t[i]] + t[i + 1..];
    }
  }

  lemma {:induction false} SmallerTop(s: seq<byte>, t: seq<byte>, i: nat)
    requires |s| == |t| && i < |s| && s[i + 1..] == t[i + 1..] && s[i] < t[i]
    ensures Bytes(s) < Bytes(t)
  {
    if i > 0 {
      assert s[1..][i..] == s[i + 1..] && t[1..][i..] == t[i + 1..];
      SmallerTop(s[1..], t[1..], i - 1);
    }
  }

  method CanonicalScalar(encoded: seq<byte>) returns (ok: bool)
    requires |encoded| == 32
    ensures ok <==> Bytes(encoded) < Scalar.ORDER
  {
    OrderBytes();
    ok := LittleEndianLess(encoded, GROUP_ORDER);
  }

  /** The encoded y coordinate: the bytes without the sign bit. */
  function YOf(encoded: seq<byte>): seq<byte>
    requires |encoded| == 32
  {
    encoded[31 := encoded[31] % 128]
  }

  /** A canonical y coordinate that does not belong to a point of small order. */
  predicate Strict(encoded: seq<byte>) {
    |encoded| == 32 && Bytes(YOf(encoded)) < Field.P && YOf(encoded) !in SMALL_ORDER_Y
  }

  method StrictPoint(encoded: seq<byte>) returns (ok: bool)
    requires |encoded| == 32
    ensures ok <==> Strict(encoded)
  {
    var y := YOf(encoded);
    PrimeBytes();
    ok := LittleEndianLess(y, FIELD_PRIME);
    if ok {
      ok := NoneOf(SMALL_ORDER_Y, y);
    }
  }

  method NoneOf(points: seq<seq<byte>>, y: seq<byte>) returns (none: bool)
    ensures none <==> y !in points
  {
    var i := 0;
    while i < |points|
      invariant 0 <= i <= |points|
      invariant y !in points[..i]
    {
      if y == points[i] {
        return false;
      }
      i := i + 1;
    }
    return true;
  }

  /** The group and the functions around it, none of them specified here. */
  datatype Curve<!G> = Curve(
    group: Group<G>,
    base: G,
    decodeNegated: seq<byte> -> Option<G>,
    encode: G -> seq<byte>,
    hash: seq<byte> -> seq<byte>)

  /** S * B - k * A encodes to R, with S canonical and k the hash modulo the order. */
  ghost predicate Accepts<G(!new)>(c: Curve<G>, key: seq<byte>, input: seq<byte>, signature: seq<byte>)
    requires forall m :: |c.hash(m)| == 64
  {
    && |key| == 32 && |signature| == 64 && Strict(key) && Strict(signature[..32])
    && Bytes(signature[32..]) < Scalar.ORDER
    && var k := Bytes(c.hash(signature[..32] + key + input)) % Scalar.ORDER;
       var negated := c.decodeNegated(key);
       negated.Some? && c.encode(Sliding.Combination(c.group, k, Bytes(signature[32..]), negated.value, c.base))
           == signature[..32]
  }

  /** The whole check; bTable is the fixed table of odd multiples of the base point. */
  method Verify<G(!new)>(c: Curve<G>, bTable: array<G>, key: seq<byte>, input: seq<byte>, signature: seq<byte>)
    returns (ok: bool)
    requires Abelian(c.group) && Sliding.OddMultiples(c.group, bTable[..], c.base)
    requires forall m :: |c.hash(m)| == 64
    ensures ok <==> Accepts(c, key, input, signature)
  {
    if |key| != 32 || |signature| != 64 {
      return false;
    }
    ok := StrictPoint(key);
    if ok {
      ok := StrictPoint(signature[..32]);
    }
    if ok {
      ok := CanonicalScalar(signature[32..]);
    }
    if ok {
      ok := VerifyEquation(c, bTable, key, input, signature);
    }
  }

  method VerifyEquation<G(!new)>(c: Curve<G>, bTable: array<G>, key: seq<byte>, input: seq<byte>, signature: seq<byte>)
    returns (ok: bool)
    requires Abelian(c.group) && Sliding.OddMultiples(c.group, bTable[..], c.base)
    requires forall m :: |c.hash(m)| == 64
    requires |key| == 32 && |signature| == 64 && Strict(key) && Strict(signature[..32])
    requires Bytes(signature[32..]) < Scalar.ORDER
    ensures ok <==> Accepts(c, key, input, signature)
  {
    Scalar.TopByte(signature[32..]);
    // signature[63] & 224
    if signature[63] / 32 != 0 {
      return false;
    }
    var negated := c.decodeNegated(key);
    if negated.None? {
      return false;
    }
    var digest := c.hash(signature[..32] + key + input);
    var h := new byte[64] (i requires 0 <= i < 64 => digest[i]);
    assert h[..] == digest;
    Scalar.ScReduce(h);
    var r := Sliding.DoubleScalarMult(c.group, h[..32], negated.value, signature[32..], bTable, c.base);
    ok := c.encode(r) == signature[..32];
  }
}
