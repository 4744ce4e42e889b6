/** The streaming SHA-256 of crypto.cpp. */
module Sha256 {
  import opened Bits
  import opened Limbs
  import opened Words
  import opened Hashing

  class Sha256Schedule<S(!new)> {
    const algorithm: Algorithm<S>
    var state: S
    var bitCount: word
    const buffer: array<byte>
    var buffered: nat
    /** The blocks that went into the state. */
    ghost var blocks: seq<byte>

    /** Everything passed to Update so far. */
    ghost function Message(): seq<byte>
      requires buffered <= buffer.Length
      reads this, buffer
    {
      blocks + buffer[..buffered]
    }

    ghost predicate Absorbed()
      reads this
    {
      && buffer.Length == 64 && buffered < 64 && |blocks| % 64 == 0
      && state == Compressed(algorithm, algorithm.start, blocks, 64)
    }

    ghost predicate Valid()
      reads this, buffer
    {
      Absorbed() && bitCount == Counter(|Message()|)
    }

    constructor (a: Algorithm<S>)
      ensures Valid() && Message() == [] && algorithm == a && fresh(buffer)
    {
      algorithm := a;
      state := a.start;
      bitCount := 0;
      buffer := new byte[64] (_ => 0);
      buffered := 0;
      blocks := [];
    }

    method Update(data: seq<byte>)
      requires Valid() && |data| < BASE
      modifies this, buffer
      ensures Valid() && Message() == old(Message()) + data
    {
      CounterAdd(|Message()|, |data|);
      bitCount := (bitCount + Counter(|data|)) % BASE;
      var rest := data;
      assert Message() + rest == old(Message()) + data;
      while |rest| > 0
        invariant Absorbed() && Message() + rest == old(Message()) + data
        invariant bitCount == Counter(|old(Message()) + data|)
      {
        rest := Take(rest);
      }
      assert Message() + [] == Message();
    }

    /** One round of the loop in Update. */
    method Take(data: seq<byte>) returns (rest: seq<byte>)
      requires |data| > 0 && Absorbed()
      modifies this, buffer
      ensures Absorbed() && Message() + rest == old(Message()) + data && |rest| < |data|
      ensures bitCount == old(bitCount)
    {
      var take := if |data| < 64 - buffered then |data| else 64 - buffered;
      Copy(data[..take]);
      buffered := buffered + take;
      rest := data[take..];
      assert data == data[..take] + rest;
      if buffered == 64 {
        Flush();
      }
    }

    /** The full buffer goes into the state. */
    method Flush()
      requires buffer.Length == 64 && buffered == 64 && |blocks| % 64 == 0
      requires state == Compressed(algorithm, algorithm.start, blocks, 64)
      modifies this
      ensures Absorbed() && Message() == old(Message()) && bitCount == old(bitCount)
    {
      assert buffer[..buffered] == buffer[..];
      OneMoreBlock(algorithm, algorithm.start, blocks, buffer[..], 64);
      blocks := blocks + buffer[..];
      state := algorithm.compress(state, buffer[..]);
      buffered := 0;
    }

    /** memcpy(buffer + buffered, data, length) */
    method Copy(data: seq<byte>)
      requires buffered + |data| <= buffer.Length
      modifies buffer
      ensures buffer[..buffered + |data|] == old(buffer[..buffered]) + data
    {
      forall i | 0 <= i < |data| {
        buffer[buffered + i] := data[i];
      }
    }

    /** The digest: the output of the state after the padded message, whose length field holds the bit count. */
    method Finish() returns (digest: seq<byte>)
      requires Valid()
      modifies this, buffer
      ensures state == Compressed(algorithm, algorithm.start, Padded(old(Message()), Counter(|old(Message())|), 64, 8),
                                  64)
      ensures digest == algorithm.output(state) && buffered == 0
      ensures 8 * |old(Message())| < BASE ==> digest == Hash(algorithm, old(Message()), 64, 8)
    {
      var bits := bitCount;
      ghost var m := Message();
      PadZeros();
      FinishBlock(m, bits);
      digest := algorithm.output(state);
      if 8 * |m| < BASE {
        CounterExact(|m|);
      }
    }

    /** The block that ends in the length field. */
    method FinishBlock(ghost m: seq<byte>, bits: word)
      requires Absorbed() && buffered == 56 && Message() == m + [0x80] + Zeros(ZeroCount(|m|, 64, 8))
      modifies this, buffer
      ensures buffered == 0 && state == Compressed(algorithm, algorithm.start, Padded(m, bits, 64, 8), 64)
    {
      ghost var tail := buffer[..56];
      StoreLength(bits);
      FieldLast(m, bits, blocks, tail);
      OneMoreBlock(algorithm, algorithm.start, blocks, buffer[..], 64);
      state := algorithm.compress(state, buffer[..]);
      buffered := 0;
    }

    /** lengthBytes[i] = bits >> (56 - 8 * i), written over the end of the buffer. */
    method StoreLength(bits: word)
      requires buffer.Length == 64
      modifies buffer
      ensures buffer[..] == old(buffer[..56]) + BigEndian(bits, 8)
    {
      forall i | 0 <= i < 8
        ensures Shr(bits, 56 - 8 * i) % 256 == BigEndian(bits, 8)[i]
      {
        BigEndianByte(bits, 8, 7 - i);
      }
      forall i | 0 <= i < 8 {
        buffer[56 + i] := Shr(bits, 56 - 8 * i) % 256;
      }
    }

    /** k of the zeros after message m and its marker are in. */
    ghost predicate Padding(m: seq<byte>, k: nat)
      reads this, buffer
    {
      && Valid() && Message() == m + [0x80] + Zeros(k) && k <= ZeroCount(|m|, 64, 8)
      && (buffered == 56 <==> k == ZeroCount(|m|, 64, 8))
    }

    /** The marker and zeros up to the length field. */
    method PadZeros()
      requires Valid()
      modifies this, buffer
      ensures Valid() && buffered == 56
      ensures Message() == old(Message()) + [0x80] + Zeros(ZeroCount(|old(Message())|, 64, 8))
    {
      ghost var m, k := Message(), 0;
      AddMarker();
      while buffered != 56
        invariant Padding(m, k)
        decreases ZeroCount(|m|, 64, 8) - k
      {
        AddZero(m, k);
        k := k + 1;
      }
    }

    method AddMarker()
      requires Valid()
      modifies this, buffer
      ensures Padding(old(Message()), 0)
    {
      ghost var m := Message();
      Update([0x80]);
      assert Message() == m + [0x80] + Zeros(0);
      StopsAtField(|m|, 0, |blocks|, buffered);
    }

    method AddZero(ghost m: seq<byte>, ghost k: nat)
      requires Padding(m, k) && buffered != 56
      modifies this, buffer
      ensures Padding(m, k + 1)
    {
      Update([0]);
      assert Message() == m + [0x80] + Zeros(k + 1);
      StopsAtField(|m|, k + 1, |blocks|, buffered);
    }
  }

  lemma FieldLast(m: seq<byte>, bits: word, blocks: seq<byte>, tail: seq<byte>)
    requires blocks + tail == m + [0x80] + Zeros(ZeroCount(|m|, 64, 8))
    ensures blocks + (tail + BigEndian(bits, 8)) == Padded(m, bits, 64, 8)
  {
    assert blocks + (tail + BigEndian(bits, 8)) == (blocks + tail) + BigEndian(bits, 8);
  }

  /** Any split of a message into updates gives the hash of the whole message. */
  method HashPieces<S(!new)>(a: Algorithm<S>, pieces: seq<seq<byte>>) returns (digest: seq<byte>)
    requires forall i | 0 <= i < |pieces| :: |pieces[i]| < BASE
    requires 8 * |Concat(pieces)| < BASE
    ensures digest == Hash(a, Concat(pieces), 64, 8)
  {
    var schedule := new Sha256Schedule(a);
    var i := 0;
    while i < |pieces|
      invariant 0 <= i <= |pieces|
      invariant schedule.Valid() && schedule.Message() == Concat(pieces[..i]) && schedule.algorithm == a
      invariant fresh(schedule) && fresh(schedule.buffer)
    {
      ConcatNext(pieces, i);
      schedule.Update(pieces[i]);
      i := i + 1;
    }
    assert pieces[..i] == pieces;
    digest := schedule.Finish();
  }
}
