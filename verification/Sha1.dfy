/** thirdparty/sha1/sha1.cpp: bulk buffering with a remainder. */
module Sha1 {
  import opened Arithmetic
  import opened BlockHash

  const TWO_64 := 0x1_0000_0000_0000_0000

  predicate IsSha1<S>(alg: Algorithm<S>) {
    alg.block == 64 && alg.lengthSize == 8 && alg.bigEndian
  }

  lemma LowBits(m: nat)
    ensures m % TWO_64 % 64 == m % 64
  {
    LowKept(m, TWO_64 / 64, 64);
  }

  lemma Available(size: nat, rest: nat)
    requires size < 0x8000_0000_0000_0000 && rest < 64
    ensures (size + rest) % TWO_64 == size + rest
    ensures size + rest < 64 ==> (size + rest) % 64 == size + rest
  {
  }

  lemma WholeChunks(size: nat, rest: nat)
    requires rest < 64 <= rest + size
    ensures 64 - rest <= size - (size + rest) % 64
    ensures (size - (size + rest) % 64 - (64 - rest)) % 64 == 0
  {
  }

  lemma Rejoin(before: seq<byte>, data: seq<byte>, i: nat)
    requires i <= |data|
    ensures (before + data[..i]) + data[i..] == before + data
  {
  }

  class Sha1State<S> {
    const core: BlockBuffer<S>
    var messageSize: nat
    ghost var message: seq<byte>

    ghost predicate Valid()
      reads this, core, core.buffer
    {
      && IsSha1(core.alg) && core.Holds(message, |message| % 64)
      && messageSize == |message| % TWO_64
    }

    /** `sha1InitState`. */
    constructor (alg: Algorithm<S>)
      requires IsSha1(alg)
      ensures Valid() && fresh(core) && fresh(core.buffer) && message == [] && core.alg == alg
    {
      core := new BlockBuffer(alg);
      messageSize, message := 0, [];
    }

    constructor CopyOf(other: Sha1State<S>)
      requires other.Valid()
      ensures Valid() && fresh(core) && fresh(core.buffer) && message == other.message && core.alg == other.core.alg
    {
      core := new BlockBuffer.CopyOf(other.core);
      messageSize, message := other.messageSize, other.message;
    }

    method Update(data: seq<byte>)
      requires Valid() && |data| < 0x8000_0000_0000_0000
      modifies this, core, core.buffer
      ensures Valid() && message == old(message) + data
    {
      hide Fold, Whole;
      LowBits(|message|);
      CounterAdds(|message|, |data|, TWO_64);
      CounterAdds(|message|, |data|, 64);
      var rest := messageSize % 64;
      Available(|data|, rest);
      var availableData := (|data| + rest) % TWO_64;
      messageSize := (messageSize + |data|) % TWO_64;
      if availableData < 64 {
        core.Keep(rest, data, message);
      } else {
        Chunks(rest, data, message);
      }
      message := message + data;
    }

    /** Data that completes at least one block. */
    method Chunks(rest: nat, data: seq<byte>, ghost before: seq<byte>)
      requires core.Holds(before, rest) && rest < 64 <= rest + |data| && core.alg.block == 64
      modifies core`h, core.buffer
      ensures core.Holds(before + data, (rest + |data|) % 64)
    {
      var i := 64 - rest;
      core.Fill(rest, data[..i], before);
      var lastI := |data| - (|data| + rest) % 64;
      WholeChunks(|data|, rest);
      ProcessChunks(data, i, lastI, before);
      core.Keep(0, data[lastI..], before + data[..lastI]);
      Rejoin(before, data, lastI);
    }

    method ProcessChunks(data: seq<byte>, from: nat, lastI: nat, ghost before: seq<byte>)
      requires from <= lastI <= |data| && (lastI - from) % 64 == 0 && core.alg.block == 64
      requires core.Holds(before + data[..from], 0)
      modifies core`h
      ensures core.Holds(before + data[..lastI], 0)
    {
      var i := from;
      while i < lastI
        invariant from <= i <= lastI && (lastI - i) % 64 == 0
        invariant core.Holds(before + data[..i], 0)
      {
        DataNext(data, i, i + 64, before + data[..i], before);
        core.Process(data[i..i + 64], before + data[..i]);
        i := i + 64;
      }
    }

    /** `sha1FinalizeState` and `sha1ToHash`. */
    method Finalize() returns (digest: seq<byte>)
      requires Valid()
      modifies this, core, core.buffer
      ensures digest == Digest(core.alg, old(message))
    {
      ghost var before := message;
      var size := messageSize;
      var sizeInBits := BigEndian(size * 8 % TWO_64, 8);
      var used := size % 64;
      Update([0x80]);
      if used > 56 - 1 {
        Update(Zeros(64 - 1 - used));
        Update(Zeros(64 - 8));
      } else {
        Update(Zeros(64 - 1 - 8 - used));
      }
      Update(sizeInBits);
      LowBits(|before|);
      PaddedBy(core.alg, before, size, used, message);
      PaddedLength(core.alg, before);
      AllFolded(core.alg, before, core.h, core.buffer[..]);
      digest := core.alg.output(core.h);
    }
  }

  /** The three or four updates of `sha1FinalizeState` append the padding. */
  lemma PaddedBy<S>(alg: Algorithm<S>, before: seq<byte>, size: nat, used: nat, after: seq<byte>)
    requires IsSha1(alg) && size == |before| % TWO_64 && used == |before| % 64
    requires var length := BigEndian(size * 8 % TWO_64, 8);
      after == if used > 55 then before + [0x80] + Zeros(63 - used) + Zeros(56) + length
               else before + [0x80] + Zeros(55 - used) + length
    ensures after == Padded(alg, before)
  {
    SizeInBits(|before|);
    WordSizes();
    LengthWraps(alg, 8 * |before|, size * 8 % TWO_64, 8 * |before| / TWO_64);
    var length := BigEndian(size * 8 % TWO_64, 8);
    if used > 55 {
      PaddingPieces(alg, before, 63 - used, 56, length);
    } else {
      PaddingPieces(alg, before, 55 - used, 0, length);
      assert before + [0x80] + Zeros(55 - used) + Zeros(0) == before + [0x80] + Zeros(55 - used);
    }
  }

  lemma SizeInBits(m: nat)
    ensures m % TWO_64 * 8 % TWO_64 == 8 * m % TWO_64
    ensures 8 * m == 8 * m % TWO_64 + (8 * m / TWO_64) * TWO_64
  {
    MulMod(m, 8, TWO_64);
    DivModSplit(8 * m, TWO_64);
  }
}
