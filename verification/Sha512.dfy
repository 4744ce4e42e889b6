/** The streaming SHA-512 of sha512.c. */
module Sha512 {
  import opened Bits
  import opened Limbs
  import opened Words
  import opened Hashing

  class Sha512Context<S(!new)> {
    const algorithm: Algorithm<S>
    var length: word
    var state: S
    var curlen: nat
    const buf: array<byte>
    /** The blocks that went into the state. */
    ghost var blocks: seq<byte>

    /** Everything passed to Update so far. */
    ghost function Message(): seq<byte>
      requires curlen <= buf.Length
      reads this, buf
    {
      blocks + buf[..curlen]
    }

    ghost predicate Absorbed()
      reads this
    {
      && buf.Length == 128 && |blocks| % 128 == 0
      && state == Compressed(algorithm, algorithm.start, blocks, 128)
    }

    ghost predicate Valid()
      reads this
    {
      Absorbed() && curlen < 128 && length == Counter(|blocks|)
    }

    constructor (a: Algorithm<S>)
      ensures Valid() && Message() == [] && algorithm == a && fresh(buf)
    {
      CounterAdd(0, 0);
      algorithm := a;
      length := 0;
      state := a.start;
      curlen := 0;
      buf := new byte[128] (_ => 0);
      blocks := [];
    }

    method Update(data: seq<byte>)
      requires Valid()
      modifies this, buf
      ensures Valid() && Message() == old(Message()) + data
    {
      var rest := data;
      assert Message() + rest == old(Message()) + data;
      while |rest| > 0
        invariant Valid() && Message() + rest == old(Message()) + data
      {
        if curlen == 0 && |rest| >= 128 {
          ghost var before := Message() + rest;
          Compress(rest[..128]);
          assert before == Message() + rest[128..];
          rest := rest[128..];
        } else {
          rest := Fill(rest);
        }
      }
      assert Message() + [] == Message();
    }

    /** sha512_compress and the count of its bits. */
    method Compress(block: seq<byte>)
      requires |block| == 128 && Absorbed() && length == Counter(|blocks|)
      modifies this
      ensures Absorbed() && length == Counter(|blocks|)
      ensures curlen == old(curlen) && blocks == old(blocks) + block
    {
      OneMoreBlock(algorithm, algorithm.start, blocks, block, 128);
      CounterBlock(|blocks|);
      state := algorithm.compress(state, block);
      length := (length + 128 * 8) % BASE;
      blocks := blocks + block;
    }

    /** The branch of Update that goes through the buffer. */
    method Fill(data: seq<byte>) returns (rest: seq<byte>)
      requires |data| > 0 && Valid()
      modifies this, buf
      ensures Valid() && Message() + rest == old(Message()) + data && |rest| < |data|
    {
      var n := if |data| < 128 - curlen then |data| else 128 - curlen;
      Put(data[..n]);
      rest := data[n..];
      assert data == data[..n] + rest;
      if curlen == 128 {
        assert buf[..curlen] == buf[..];
        Compress(buf[..]);
        curlen := 0;
      }
    }

    /** Appends to the buffer. */
    method Put(data: seq<byte>)
      requires curlen + |data| <= buf.Length
      modifies this`curlen, buf
      ensures curlen == old(curlen) + |data| && buf[..curlen] == old(buf[..curlen]) + data
    {
      var i := 0;
      while i < |data|
        invariant 0 <= i <= |data| && curlen == old(curlen)
        invariant buf[..curlen + i] == old(buf[..curlen]) + data[..i]
      {
        buf[i + curlen] := data[i];
        i := i + 1;
      }
      curlen := curlen + |data|;
    }

    /** Zeros up to the given position. */
    method PutZeros(end: nat)
      requires curlen <= end <= buf.Length
      modifies this`curlen, buf
      ensures curlen == end && buf[..curlen] == old(buf[..curlen]) + Zeros(end - old(curlen))
    {
      while curlen < end
        invariant old(curlen) <= curlen <= end
        invariant buf[..curlen] == old(buf[..curlen]) + Zeros(curlen - old(curlen))
      {
        buf[curlen] := 0;
        curlen := curlen + 1;
      }
    }

    /** The digest: the output of the state after the padded message, whose length field holds the bit count. */
    method Final() returns (out: seq<byte>)
      requires Valid()
      modifies this, buf
      ensures state == Compressed(algorithm, algorithm.start,
                                  Padded(old(Message()), Counter(|old(Message())|), 128, 16), 128)
      ensures out == algorithm.output(state)
      ensures 8 * |old(Message())| < BASE ==> out == Hash(algorithm, old(Message()), 128, 16)
    {
      ghost var m := Message();
      FinishBlocks();
      out := algorithm.output(state);
      if 8 * |m| < BASE {
        CounterExact(|m|);
      }
    }

    /** The last one or two blocks. */
    method FinishBlocks()
      requires Valid()
      modifies this, buf
      ensures state == Compressed(algorithm, algorithm.start,
                                  Padded(old(Message()), Counter(|old(Message())|), 128, 16), 128)
    {
      CountRest();
      var bits := length;
      PadZeros(bits);
      StoreLength(bits);
      CompressBuffer();
    }

    /** md->length += md->curlen * 8 */
    method CountRest()
      requires Valid()
      modifies this`length
      ensures length == Counter(|Message()|)
    {
      CounterAdd(|blocks|, curlen);
      length := (length + Counter(curlen)) % BASE;
    }

    /** sha512_compress on the full buffer, with the count left alone. */
    method CompressBuffer()
      requires Absorbed()
      modifies this
      ensures Absorbed() && blocks == old(blocks) + buf[..]
      ensures state == Compressed(algorithm, algorithm.start, old(blocks) + buf[..], 128)
      ensures curlen == old(curlen) && length == old(length)
    {
      OneMoreBlock(algorithm, algorithm.start, blocks, buf[..], 128);
      state := algorithm.compress(state, buf[..]);
      blocks := blocks + buf[..];
    }

    /** The marker and zeros up to the last eight bytes of a block. */
    method PadZeros(ghost bits: word)
      requires Absorbed() && curlen < 128
      modifies this, buf
      ensures Absorbed() && curlen == 120 && length == old(length)
      ensures blocks + (buf[..120] + BigEndian(bits, 8)) == Padded(old(Message()), bits, 128, 16)
    {
      ghost var whole, tail := blocks, buf[..curlen];
      Put([0x80]);
      if curlen > 112 {
        PaddedLong(whole, tail, bits);
        PutZeros(128);
        assert buf[..] == tail + [0x80] + Zeros(127 - |tail|);
        CompressBuffer();
        curlen := 0;
      } else {
        PaddedShort(whole, tail, bits);
      }
      PutZeros(120);
    }

    /** STORE64H at the end of the buffer. */
    method StoreLength(bits: word)
      requires buf.Length == 128
      modifies buf
      ensures buf[..] == old(buf[..120]) + BigEndian(bits, 8)
    {
      forall i | 0 <= i < 8
        ensures Shr(bits, 56 - 8 * i) % 256 == BigEndian(bits, 8)[i]
      {
        BigEndianByte(bits, 8, 7 - i);
      }
      forall i | 0 <= i < 8 {
        buf[120 + i] := Shr(bits, 56 - 8 * i) % 256;
      }
    }
  }

  /** The 16-byte length field: eight zeros and the 64-bit count. */
  lemma WideField(bits: word)
    ensures BigEndian(bits, 16) == Zeros(8) + BigEndian(bits, 8)
  {
    Dbl64(1);
    BigEndianWide(bits, 8, 8);
  }

  lemma ZerosHere(size: nat, c: nat)
    requires c == size % 128
    ensures ZeroCount(size, 128, 16) == if c <= 111 then 111 - c else 239 - c
  {
    var past := (size + 17) % 128;
    assert ZeroCount(size, 128, 16) == if past == 0 then 0 else 128 - past;
  }

  /** The length field still fits the block of the marker. */
  lemma PaddedShort(whole: seq<byte>, tail: seq<byte>, bits: word)
    requires |whole| % 128 == 0 && |tail| <= 111
    ensures whole + (tail + [0x80] + Zeros(119 - |tail|) + BigEndian(bits, 8)) == Padded(whole + tail, bits, 128, 16)
  {
    WideField(bits);
    ZerosHere(|whole + tail|, |tail|);
    assert Zeros(119 - |tail|) == Zeros(111 - |tail|) + Zeros(8);
  }

  /** The length field goes into a block of its own. */
  lemma PaddedLong(whole: seq<byte>, tail: seq<byte>, bits: word)
    requires |whole| % 128 == 0 && 111 < |tail| < 128
    ensures whole + (tail + [0x80] + Zeros(127 - |tail|)) + (Zeros(120) + BigEndian(bits, 8))
            == Padded(whole + tail, bits, 128, 16)
  {
    WideField(bits);
    ZerosHere(|whole + tail|, |tail|);
    assert Zeros(239 - |tail|) + Zeros(8) == Zeros(127 - |tail|) + Zeros(120);
  }

  /** Any split of a message into updates gives the hash of the whole message. */
  method HashPieces<S(!new)>(a: Algorithm<S>, pieces: seq<seq<byte>>) returns (digest: seq<byte>)
    requires 8 * |Concat(pieces)| < BASE
    ensures digest == Hash(a, Concat(pieces), 128, 16)
  {
    var context := new Sha512Context(a);
    var i := 0;
    while i < |pieces|
      invariant 0 <= i <= |pieces|
      invariant context.Valid() && context.Message() == Concat(pieces[..i]) && context.algorithm == a
      invariant fresh(context) && fresh(context.buf)
    {
      ConcatNext(pieces, i);
      context.Update(pieces[i]);
      i := i + 1;
    }
    assert pieces[..i] == pieces;
    digest := context.Final();
  }
}
