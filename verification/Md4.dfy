/** thirdparty/md4/md4.cpp: a counter of 29 and 32 bits, and blocks compressed in bulk. */
module Md4 {
  import opened Arithmetic
  import opened BlockHash

  const TWO_29 := 0x2000_0000
  const TWO_32 := 0x1_0000_0000
  const TWO_61 := 0x2000_0000_0000_0000
  const TWO_64 := 0x1_0000_0000_0000_0000

  predicate IsMd4<S>(alg: Algorithm<S>) {
    alg.block == 64 && alg.lengthSize == 8 && !alg.bigEndian
  }

  function Total(lo: nat, hi: nat): nat {
    lo + hi * TWO_29
  }

  /** `lo` and `hi` after `size` more bytes, as `md4_update` computes them. */
  function LoAfter(lo: nat, size: nat): nat {
    (lo + size) % TWO_29
  }

  function HiAfter(lo: nat, hi: nat, size: nat): nat {
    var carried := if LoAfter(lo, size) < lo then (hi + 1) % TWO_32 else hi;
    (carried + size / TWO_29) % TWO_32
  }

  /** The counter is exact modulo 2^61, for chunks of any size. */
  lemma CounterExact(lo: nat, hi: nat, size: nat)
    requires lo < TWO_29 && hi < TWO_32
    ensures LoAfter(lo, size) < TWO_29 && HiAfter(lo, hi, size) < TWO_32
    ensures Total(LoAfter(lo, size), HiAfter(lo, hi, size)) == (Total(lo, hi) + size) % TWO_61
  {
    var q, r := size / TWO_29, size % TWO_29;
    DivModSplit(size, TWO_29);
    var c := if lo + r < TWO_29 then 0 else 1;
    var low := lo + r - c * TWO_29;
    DivModUnique(lo + size, TWO_29, q + c, low);
    HighWraps(hi, c, q);
    var d := (hi + c + q) / TWO_32;
    DivModSplit(hi + c + q, TWO_32);
    DivModUnique(Total(lo, hi) + size, TWO_61, d, Total(low, (hi + c + q) % TWO_32));
  }

  lemma HighWraps(hi: nat, c: nat, q: nat)
    requires hi < TWO_32 && c <= 1
    ensures ((if c == 1 then (hi + 1) % TWO_32 else hi) + q) % TWO_32 == (hi + c + q) % TWO_32
  {
    CounterAdds(hi + c, q, TWO_32);
    DivModSplit(hi, TWO_32);
  }

  class Md4Context<S> {
    const core: BlockBuffer<S>
    var lo: nat
    var hi: nat
    ghost var message: seq<byte>

    ghost predicate Valid()
      reads this, core, core.buffer
    {
      && IsMd4(core.alg) && core.Holds(message, |message| % 64)
      && lo < TWO_29 && hi < TWO_32 && Total(lo, hi) == |message| % TWO_61
    }

    /** `md4_init`. */
    constructor (alg: Algorithm<S>)
      requires IsMd4(alg)
      ensures Valid() && fresh(core) && fresh(core.buffer) && message == [] && core.alg == alg
    {
      core := new BlockBuffer(alg);
      lo, hi, message := 0, 0, [];
    }

    constructor CopyOf(other: Md4Context<S>)
      requires other.Valid()
      ensures Valid() && fresh(core) && fresh(core.buffer) && message == other.message && core.alg == other.core.alg
    {
      core := new BlockBuffer.CopyOf(other.core);
      lo, hi, message := other.lo, other.hi, other.message;
    }

    /** `md4_update`; `size_t` has 64 bits. */
    method Update(data: seq<byte>)
      requires Valid() && |data| < TWO_64 - TWO_29
      modifies this, core, core.buffer
      ensures Valid() && message == old(message) + data
    {
      hide Holding;
      CounterStep(lo, hi, |message|, |data|);
      var savedLo := lo;
      lo := (savedLo + |data|) % TWO_64 % TWO_29;
      if lo < savedLo {
        hi := (hi + 1) % TWO_32;
      }
      hi := (hi + |data| / TWO_29) % TWO_32;
      var used := savedLo % 64;
      Chunks(used, data, message);
      message := message + data;
    }

    method Chunks(used: nat, data: seq<byte>, ghost before: seq<byte>)
      requires used < 64 && core.alg.block == 64 && core.Holds(before, used)
      modifies core`h, core.buffer
      ensures core.Holds(before + data, (used + |data|) % 64)
    {
      if used != 0 {
        var free := 64 - used;
        if |data| < free {
          core.Keep(used, data, before);
          DivModUnique(used + |data|, 64, 0, used + |data|);
        } else {
          core.Fill(used, data[..free], before);
          BlocksAndRest(data, free, before);
          RestAfter(used, free, |data|);
        }
      } else {
        assert before + data[..0] == before;
        BlocksAndRest(data, 0, before);
      }
    }

    /** What comes once the buffer is empty. */
    method BlocksAndRest(data: seq<byte>, start: nat, ghost before: seq<byte>)
      requires start <= |data| && core.alg.block == 64 && core.Holds(before + data[..start], 0)
      modifies core`h, core.buffer
      ensures core.Holds(before + data, (|data| - start) % 64)
    {
      hide Holding;
      var size := |data| - start;
      var ptr := start;
      if size >= 64 {
        DivModSplit(size, 64);
        Body(data, start, size / 64, before);
        ptr := start + 64 * (size / 64);
      } else {
        DivModUnique(size, 64, 0, size);
      }
      core.Keep(0, data[ptr..], before + data[..ptr]);
      assert (before + data[..ptr]) + data[ptr..] == before + data;
    }

    /** `body`, which compresses `n` blocks, at least one. */
    method Body(data: seq<byte>, from: nat, n: nat, ghost before: seq<byte>)
      requires 0 < n && from + 64 * n <= |data| && core.alg.block == 64
      requires core.Holds(before + data[..from], 0)
      modifies core`h
      ensures core.Holds(before + data[..from + 64 * n], 0)
    {
      var ptr, size := from, 64 * n;
      ghost var k := n;
      while size > 0
        invariant size == 64 * k && ptr + size == from + 64 * n
        invariant core.Holds(before + data[..ptr], 0)
      {
        DataNext(data, ptr, ptr + 64, before + data[..ptr], before);
        core.Process(data[ptr..ptr + 64], before + data[..ptr]);
        ptr, size, k := ptr + 64, size - 64, k - 1;
      }
    }

    /** `md4_final`. */
    method Final() returns (result: seq<byte>)
      requires Valid()
      modifies this, core, core.buffer
      ensures result == Digest(core.alg, old(message))
    {
      hide Fold, Whole, Zeros, Length, LengthBytes, LittleEndian;
      LowBits(lo, hi, |message|);
      var used := lo % 64;
      ghost var buffer := core.buffer[..];
      core.Copy(used, [0x80]);
      var free := 64 - (used + 1);
      if free < 8 {
        core.Append(buffer, used, [0x80], used + 1, Zeros(free));
        core.Transform(buffer, used, [0x80] + Zeros(free), message);
        ghost var cleared := core.buffer[..];
        assert Stored(cleared, 0, []) == cleared;
        core.Close(cleared, 0, [], 0, Length(lo, hi), message + ([0x80] + Zeros(free)));
      } else {
        core.Close(buffer, used, [0x80], used + 1, Length(lo, hi), message);
      }
      LengthExact(core.alg, |message|, lo, hi);
      PaddedBlocks(core.alg, message, used, Length(lo, hi));
      AllFolded(core.alg, message, core.h, core.buffer[..]);
      result := core.alg.output(core.h);
    }
  }

  lemma LowBits(lo: nat, hi: nat, m: nat)
    requires lo < TWO_29 && Total(lo, hi) == m % TWO_61
    ensures lo % 64 == m % 64
  {
    LowKept(m, TWO_61 / 64, 64);
    DivModSplit(lo, 64);
    DivModUnique(Total(lo, hi), 64, hi * 0x80_0000 + lo / 64, lo % 64);
  }

  lemma CounterStep(lo: nat, hi: nat, m: nat, size: nat)
    requires lo < TWO_29 && hi < TWO_32 && Total(lo, hi) == m % TWO_61 && size < TWO_64 - TWO_29
    ensures (lo + size) % TWO_64 % TWO_29 == LoAfter(lo, size) < TWO_29 && HiAfter(lo, hi, size) < TWO_32
    ensures Total(LoAfter(lo, size), HiAfter(lo, hi, size)) == (m + size) % TWO_61
    ensures lo % 64 == m % 64 && (m + size) % 64 == (lo % 64 + size) % 64
  {
    LowBits(lo, hi, m);
    CounterExact(lo, hi, size);
    CounterAdds(m, size, TWO_61);
    CounterAdds(m, size, 64);
    DivModUnique(lo + size, TWO_64, 0, lo + size);
  }

  lemma RestAfter(used: nat, start: nat, size: nat)
    requires used < 64 && start <= size && (used + start) % 64 == 0
    ensures (size - start) % 64 == (used + size) % 64
  {
    var k, e := (used + start) / 64, (size - start) / 64;
    DivModSplit(used + start, 64);
    DivModSplit(size - start, 64);
    DivModUnique(used + size, 64, k + e, (size - start) % 64);
  }

  /** Bytes 56 to 63 of the last block. */
  function Length(lo: nat, hi: nat): (bytes: seq<byte>)
    ensures |bytes| == 8
  {
    LittleEndian(lo * 8, 4) + LittleEndian(hi, 4)
  }

  /** Three more bits make the byte counter the 64-bit length. */
  lemma LengthExact<S>(alg: Algorithm<S>, m: nat, lo: nat, hi: nat)
    requires IsMd4(alg) && lo < TWO_29 && hi < TWO_32 && Total(lo, hi) == m % TWO_61
    ensures Length(lo, hi) == LengthBytes(alg, 8 * m)
  {
    DivModSplit(m, TWO_61);
    WordsLittle(lo * 8, hi);
    WordSizes();
    LengthWraps(alg, 8 * m, lo * 8 + hi * TWO_32, m / TWO_61);
  }
}
