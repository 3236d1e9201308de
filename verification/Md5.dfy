/** thirdparty/md5/md5.cpp on a little-endian machine, where `byteSwap` does nothing. */
module Md5 {
  import opened Arithmetic
  import opened BlockHash

  const TWO_32 := 0x1_0000_0000
  const TWO_64 := 0x1_0000_0000_0000_0000

  predicate IsMd5<S>(alg: Algorithm<S>) {
    alg.block == 64 && alg.lengthSize == 8 && !alg.bigEndian
  }

  /** The two words of the byte counter. */
  function Total(bytes0: nat, bytes1: nat): nat {
    bytes0 + bytes1 * TWO_32
  }

  /** The carry of `MD5Update` is exact. */
  lemma CarryExact(bytes0: nat, bytes1: nat, len: nat)
    requires bytes0 < TWO_32 && bytes1 < TWO_32 && len < TWO_32
    ensures var low := (bytes0 + len) % TWO_32;
      Total(low, if low < bytes0 then (bytes1 + 1) % TWO_32 else bytes1) == (Total(bytes0, bytes1) + len) % TWO_64
  {
    var low := (bytes0 + len) % TWO_32;
    if bytes0 + len >= TWO_32 {
      DivModUnique(bytes0 + len, TWO_32, 1, bytes0 + len - TWO_32);
    }
  }

  /** What `MD5Final` writes into the last two words is the length in bits. */
  lemma BitsExact(bytes0: nat, bytes1: nat)
    requires bytes0 < TWO_32 && bytes1 < TWO_32
    ensures var low, high := bytes0 * 8 % TWO_32, (bytes1 * 8 % TWO_32 + bytes0 / 0x2000_0000) % TWO_32;
      low + high * TWO_32 == 8 * Total(bytes0, bytes1) % TWO_64
  {
    var e, f := bytes0 / 0x2000_0000, bytes1 / 0x2000_0000;
    DivModUnique(bytes0 * 8, TWO_32, e, bytes0 * 8 - e * TWO_32);
    DivModUnique(bytes1 * 8, TWO_32, f, bytes1 * 8 - f * TWO_32);
    DivModUnique(8 * Total(bytes0, bytes1), TWO_64, f, bytes0 * 8 - e * TWO_32 + (bytes1 * 8 - f * TWO_32 + e) * TWO_32);
  }

  class MD5Context<S> {
    const core: BlockBuffer<S>
    var bytes0: nat
    var bytes1: nat
    ghost var message: seq<byte>

    ghost predicate Valid()
      reads this, core, core.buffer
    {
      && IsMd5(core.alg) && core.Holds(message, |message| % 64)
      && bytes0 < TWO_32 && bytes1 < TWO_32 && Total(bytes0, bytes1) == |message| % TWO_64
    }

    /** `MD5Init`. */
    constructor (alg: Algorithm<S>)
      requires IsMd5(alg)
      ensures Valid() && fresh(core) && fresh(core.buffer) && message == [] && core.alg == alg
    {
      core := new BlockBuffer(alg);
      bytes0, bytes1, message := 0, 0, [];
    }

    constructor CopyOf(other: MD5Context<S>)
      requires other.Valid()
      ensures Valid() && fresh(core) && fresh(core.buffer) && message == other.message && core.alg == other.core.alg
    {
      core := new BlockBuffer.CopyOf(other.core);
      bytes0, bytes1, message := other.bytes0, other.bytes1, other.message;
    }

    method MD5Update(data: seq<byte>)
      requires Valid() && |data| < TWO_32
      modifies this, core, core.buffer
      ensures Valid() && message == old(message) + data
    {
      hide Holding;
      CounterStep(bytes0, bytes1, |message|, |data|);
      var t := bytes0;
      bytes0 := (t + |data|) % TWO_32;
      if bytes0 < t {
        bytes1 := (bytes1 + 1) % TWO_32;
      }
      t := 64 - t % 64;
      if t > |data| {
        core.Keep(64 - t, data, message);
      } else {
        Chunks(t, data, message);
      }
      message := message + data;
    }

    /** The first chunk is an odd size, then come whole blocks, and a rest. */
    method Chunks(t: nat, data: seq<byte>, ghost before: seq<byte>)
      requires 0 < t <= 64 && t <= |data| && core.alg.block == 64 && core.Holds(before, 64 - t)
      modifies core`h, core.buffer
      ensures core.Holds(before + data, (64 - t + |data|) % 64)
    {
      hide Holding;
      core.Fill(64 - t, data[..t], before);
      var i, len := t, |data| - t;
      ghost var k := 0;
      while len >= 64
        invariant i == t + 64 * k <= |data| && len == |data| - i
        invariant core.Holds(before + data[..i], 0)
      {
        DataNext(data, i, i + 64, before + data[..i], before);
        core.Process(data[i..i + 64], before + data[..i]);
        i, len, k := i + 64, len - 64, k + 1;
      }
      core.Keep(0, data[i..], before + data[..i]);
      assert (before + data[..i]) + data[i..] == before + data;
      DivModUnique(64 - t + |data|, 64, k + 1, |data| - i);
    }

    method MD5Final() returns (digest: seq<byte>)
      requires Valid()
      modifies this, core, core.buffer
      ensures digest == Digest(core.alg, old(message))
    {
      hide Fold, Whole, Zeros, Length, LengthBytes, LittleEndian;
      LowBits(bytes0, bytes1, |message|);
      var used := bytes0 % 64;
      ghost var m, buffer := message, core.buffer[..];
      core.Copy(used, [0x80]);
      var count: int := 56 - 1 - used;
      if count < 0 {
        core.Append(buffer, used, [0x80], used + 1, Zeros(count + 8));
        core.Transform(buffer, used, [0x80] + Zeros(count + 8), m);
        ghost var cleared := core.buffer[..];
        assert Stored(cleared, 0, []) == cleared;
        core.Close(cleared, 0, [], 0, Length(bytes0, bytes1), m + ([0x80] + Zeros(count + 8)));
      } else {
        core.Close(buffer, used, [0x80], used + 1, Length(bytes0, bytes1), m);
      }
      LengthExact(core.alg, |m|, bytes0, bytes1);
      PaddedBlocks(core.alg, m, used, Length(bytes0, bytes1));
      AllFolded(core.alg, m, core.h, core.buffer[..]);
      digest := core.alg.output(core.h);
    }
  }

  lemma LowBits(bytes0: nat, bytes1: nat, m: nat)
    requires bytes0 < TWO_32 && bytes1 < TWO_32 && Total(bytes0, bytes1) == m % TWO_64
    ensures bytes0 % 64 == m % 64
  {
    LowKept(m, TWO_64 / 64, 64);
    DivModSplit(bytes0, 64);
    DivModUnique(Total(bytes0, bytes1), 64, bytes1 * 0x400_0000 + bytes0 / 64, bytes0 % 64);
  }

  lemma CounterStep(bytes0: nat, bytes1: nat, m: nat, len: nat)
    requires bytes0 < TWO_32 && bytes1 < TWO_32 && Total(bytes0, bytes1) == m % TWO_64 && len < TWO_32
    ensures var low := (bytes0 + len) % TWO_32;
      Total(low, if low < bytes0 then (bytes1 + 1) % TWO_32 else bytes1) == (m + len) % TWO_64
    ensures bytes0 % 64 == m % 64
    ensures (m + len) % 64 == if 64 - bytes0 % 64 > len then bytes0 % 64 + len else (bytes0 % 64 + len) % 64
  {
    LowBits(bytes0, bytes1, m);
    CarryExact(bytes0, bytes1, len);
    CounterAdds(m, len, TWO_64);
    CounterAdds(m, len, 64);
    if 64 - bytes0 % 64 > len {
      DivModUnique(bytes0 % 64 + len, 64, 0, bytes0 % 64 + len);
    }
  }

  /** `in[14]` and `in[15]` as bytes. */
  function Length(bytes0: nat, bytes1: nat): (bytes: seq<byte>)
    ensures |bytes| == 8
  {
    LittleEndian(bytes0 * 8 % TWO_32, 4) + LittleEndian((bytes1 * 8 % TWO_32 + bytes0 / 0x2000_0000) % TWO_32, 4)
  }

  lemma LengthExact<S>(alg: Algorithm<S>, m: nat, bytes0: nat, bytes1: nat)
    requires IsMd5(alg) && bytes0 < TWO_32 && bytes1 < TWO_32 && Total(bytes0, bytes1) == m % TWO_64
    ensures Length(bytes0, bytes1) == LengthBytes(alg, 8 * m)
  {
    var low, high := bytes0 * 8 % TWO_32, (bytes1 * 8 % TWO_32 + bytes0 / 0x2000_0000) % TWO_32;
    BitsExact(bytes0, bytes1);
    MulMod(m, 8, TWO_64);
    assert low + high * TWO_32 == 8 * m % TWO_64;
    BytesKept(alg, 8 * m, low, high);
  }

  /** Two words that hold a length modulo 2^64 give its bytes. */
  lemma BytesKept<S>(alg: Algorithm<S>, bits: nat, low: nat, high: nat)
    requires IsMd5(alg) && low < TWO_32 && low + high * TWO_32 == bits % TWO_64
    ensures LittleEndian(low, 4) + LittleEndian(high, 4) == LengthBytes(alg, bits)
  {
    DivModSplit(bits, TWO_64);
    WordsLittle(low, high);
    WordSizes();
    LengthWraps(alg, bits, bits % TWO_64, bits / TWO_64);
  }
}
