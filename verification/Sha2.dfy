/** thirdparty/rfc6234: SHA-224 and SHA-256 (sha224-256.c) and SHA-384 and SHA-512
    (sha384-512.c), which take their message one byte at a time. */
module Sha2 {
  import opened Arithmetic
  import opened BlockHash

  datatype Code = Success | InputTooLong | StateError | BadParam

  const TWO_32 := 0x1_0000_0000
  const TWO_64 := 0x1_0000_0000_0000_0000

  /** Blocks of 64 bytes with a length of two 32-bit words, or twice that. */
  predicate IsSha2<S>(alg: Algorithm<S>) {
    alg.bigEndian && ((alg.block == 64 && alg.lengthSize == 8) || (alg.block == 128 && alg.lengthSize == 16))
  }

  function Word<S>(alg: Algorithm<S>): nat {
    if alg.block == 64 then TWO_32 else TWO_64
  }

  /** The number of bits two length words can count. */
  function Limit<S>(alg: Algorithm<S>): nat {
    if alg.block == 64 then TWO_32 * TWO_32 else TWO_64 * TWO_64
  }

  function Total<S>(alg: Algorithm<S>, low: nat, high: nat): nat {
    if alg.block == 64 then low + high * TWO_32 else low + high * TWO_64
  }

  // ----- the last byte -------------------------------------------------------------------

  function Masks(length: nat): bv8
    requires length < 8
  {
    match length
    case 0 => 0x00 case 1 => 0x80 case 2 => 0xC0 case 3 => 0xE0
    case 4 => 0xF0 case 5 => 0xF8 case 6 => 0xFC case 7 => 0xFE
  }

  function Markbit(length: nat): bv8
    requires length < 8
  {
    match length
    case 0 => 0x80 case 1 => 0x40 case 2 => 0x20 case 3 => 0x10
    case 4 => 0x08 case 5 => 0x04 case 6 => 0x02 case 7 => 0x01
  }

  /** Bit `t` of a byte, the most significant first. */
  predicate TopBit(b: bv8, t: nat)
    requires t < 8
  {
    b & Markbit(t) != 0
  }

  function PadByte(bits: bv8, length: nat): bv8
    requires length < 8
  {
    (bits & Masks(length)) | Markbit(length)
  }

  /** The byte holds the `length` bits of the message, a one, and zeros. */
  lemma PadByteBits(bits: bv8, length: nat, t: nat)
    requires length < 8 && t < 8
    ensures TopBit(PadByte(bits, length), t) == (if t < length then TopBit(bits, t) else t == length)
  {
  }

  // ----- the length words ----------------------------------------------------------------

  /** `SHA224_256AddLength` is exact below the limit and notices when it is passed. */
  lemma AddLengthExact<S>(alg: Algorithm<S>, low: nat, high: nat, length: nat)
    requires low < Word(alg) && high < Word(alg) && length < TWO_32
    ensures var low' := (low + length) % Word(alg);
      var high' := if low' < low then (high + 1) % Word(alg) else high;
      && Total(alg, low, high) + length == Total(alg, low', high') + (if low' < low && high' == 0 then Limit(alg) else 0)
  {
    var w := Word(alg);
    if low + length >= w {
      DivModUnique(low + length, w, 1, low + length - w);
    } else {
      DivModUnique(low + length, w, 0, low + length);
    }
    if high + 1 == w {
      DivModUnique(high + 1, w, 1, 0);
    } else {
      DivModUnique(high + 1, w, 0, high + 1);
    }
  }

  function Length<S>(alg: Algorithm<S>, low: nat, high: nat): (bytes: seq<byte>)
    requires IsSha2(alg)
    ensures |bytes| == alg.lengthSize
  {
    BigEndian(high, alg.lengthSize / 2) + BigEndian(low, alg.lengthSize / 2)
  }

  lemma LengthIs<S>(alg: Algorithm<S>, low: nat, high: nat)
    requires IsSha2(alg) && low < Word(alg)
    ensures Length(alg, low, high) == LengthBytes(alg, Total(alg, low, high))
  {
    WordSizes();
    TwoWords(low, high, alg.lengthSize / 2, alg.lengthSize / 2);
  }

  // ----- the context ---------------------------------------------------------------------

  /** What the context folds when it is closed after `extra` more bits. */
  function Closed<S>(alg: Algorithm<S>, message: seq<byte>, mark: byte, extra: nat): seq<byte>
    requires Proper(alg)
  {
    message + Padding(alg, |message|, mark, 8 * |message| + extra)
  }

  class SHAContext<S> {
    const core: BlockBuffer<S>
    var lengthLow: nat
    var lengthHigh: nat
    var index: nat
    var computed: bool
    var corrupted: Code
    ghost var message: seq<byte>
    ghost var closed: seq<byte>

    ghost predicate Ready()
      reads this, core
    {
      IsSha2(core.alg) && lengthLow < Word(core.alg) && lengthHigh < Word(core.alg)
    }

    /** Taking in `message`, which has stayed below the limit. */
    ghost predicate Open()
      reads this, core, core.buffer
    {
      && Ready() && !computed && corrupted == Success
      && core.Holds(message, index)
      && Total(core.alg, lengthLow, lengthHigh) == 8 * |message|
    }

    /** Padded: the state is that of everything that was to be folded. */
    ghost predicate Finished()
      reads this, core, core.buffer
    {
      Ready() && computed && core.h == Fold(core.alg, core.alg.initial, closed)
    }

    /** `SHA224_256Reset` and `SHA384_512Reset`. */
    constructor (alg: Algorithm<S>)
      requires IsSha2(alg)
      ensures Open() && fresh(core) && fresh(core.buffer) && message == [] && core.alg == alg
    {
      core := new BlockBuffer(alg);
      lengthLow, lengthHigh, index, computed, corrupted := 0, 0, 0, false, Success;
      message, closed := [], [];
    }

    constructor CopyOf(other: SHAContext<S>)
      requires other.Open()
      ensures Open() && fresh(core) && fresh(core.buffer) && message == other.message && core.alg == other.core.alg
    {
      core := new BlockBuffer.CopyOf(other.core);
      lengthLow, lengthHigh, index := other.lengthLow, other.lengthHigh, other.index;
      computed, corrupted, message, closed := other.computed, other.corrupted, other.message, other.closed;
    }

    method AddLength(length: nat) returns (code: Code)
      requires Ready() && length < TWO_32
      modifies this`lengthLow, this`lengthHigh, this`corrupted
      ensures Ready() && code == corrupted
      ensures var total := Total(core.alg, old(lengthLow), old(lengthHigh)) + length;
        if total < Limit(core.alg) then corrupted == old(corrupted) && Total(core.alg, lengthLow, lengthHigh) == total
        else corrupted == InputTooLong && Total(core.alg, lengthLow, lengthHigh) == total - Limit(core.alg)
    {
      AddLengthExact(core.alg, lengthLow, lengthHigh, length);
      var addTemp := lengthLow;
      lengthLow := (lengthLow + length) % Word(core.alg);
      if lengthLow < addTemp {
        lengthHigh := (lengthHigh + 1) % Word(core.alg);
        if lengthHigh == 0 {
          corrupted := InputTooLong;
        }
      }
      code := corrupted;
    }

    /** One turn of the loop of `SHA256Input` and `SHA512Input`. */
    method InputByte(b: byte)
      requires Open() && 8 * (|message| + 1) <= Limit(core.alg)
      modifies this, core, core.buffer
      ensures if 8 * (|old(message)| + 1) < Limit(core.alg) then Open() && message == old(message) + [b]
              else Ready() && !computed && corrupted == InputTooLong
    {
      ghost var before, at := core.buffer[..], index;
      core.Copy(index, [b]);
      index := index + 1;
      var code := AddLength(8);
      if code == Success && index == core.alg.block {
        core.Transform(before, at, [b], message);
        index := 0;
      } else if code == Success {
        StoredHolds(core.alg, message, core.h, before, at, [b]);
      }
      message := message + [b];
    }

    method Input(bytes: seq<byte>) returns (code: Code)
      requires Ready() && (!computed && corrupted == Success ==> Open() && 8 * (|message| + |bytes|) <= Limit(core.alg))
      modifies this, core, core.buffer
      ensures old(!computed && corrupted == Success) && bytes != [] ==>
        if 8 * (|old(message)| + |bytes|) < Limit(core.alg) then code == Success && Open() && message == old(message) + bytes
        else code == InputTooLong == corrupted
      ensures old(!computed && corrupted == Success) && bytes == [] ==> Open() && message == old(message)
      ensures old(computed) && bytes != [] ==> code == StateError == corrupted
      ensures !old(computed) && old(corrupted) != Success && bytes != [] ==> code == old(corrupted) == corrupted
      ensures bytes == [] ==> code == Success && corrupted == old(corrupted)
    {
      hide Fold;
      if bytes == [] {
        return Success;
      }
      if computed {
        corrupted := StateError;
        return corrupted;
      }
      if corrupted != Success {
        return corrupted;
      }
      var i := 0;
      while i < |bytes|
        invariant i <= |bytes|
        invariant if 8 * (|old(message)| + i) < Limit(core.alg) then Open() && message == old(message) + bytes[..i]
                  else i == |bytes| && corrupted == InputTooLong
      {
        InputByte(bytes[i]);
        assert bytes[..i + 1] == bytes[..i] + [bytes[i]];
        i := i + 1;
      }
      code := corrupted;
    }

    /** The padding loops: zeros from `index` up to `end`. */
    method ZeroUntil(end: nat, ghost before: seq<byte>, ghost at: nat, ghost written: seq<byte>)
      requires at + |written| == index <= end <= core.buffer.Length == |before|
      requires core.buffer[..] == Stored(before, at, written)
      modifies this`index, core.buffer
      ensures index == end && core.buffer[..] == Stored(before, at, written + Zeros(end - old(index)))
    {
      ghost var start := index;
      assert written + Zeros(0) == written;
      while index < end
        invariant start <= index <= end && core.buffer[..] == Stored(before, at, written + Zeros(index - start))
      {
        core.Append(before, at, written + Zeros(index - start), index, [0]);
        MoreZeros(written, index - start);
        index := index + 1;
      }
    }

    /** `SHA224_256PadMessage` and `SHA384_512PadMessage`; `bits` is what the length words hold. */
    method PadMessage(padByte: byte, ghost bits: nat)
      requires IsSha2(core.alg) && core.Holds(message, index) && index == |message| % core.alg.block
      requires lengthLow < Word(core.alg) && Total(core.alg, lengthLow, lengthHigh) == bits
      modifies this`index, core`h, core.buffer
      ensures core.Holds(message + Padding(core.alg, |message|, padByte, bits), 0)
    {
      LengthIs(core.alg, lengthLow, lengthHigh);
      ghost var before, at := core.buffer[..], index;
      if index >= core.alg.block - core.alg.lengthSize {
        PadBlock(padByte);
        ghost var cleared := core.buffer[..];
        assert Stored(cleared, 0, []) == cleared;
        LastBlock(cleared, 0, [], message + ([padByte] + Zeros(core.alg.block - (at + 1))));
        TwoBlocks(core.alg, message, padByte, at, bits);
      } else {
        core.Copy(index, [padByte]);
        index := index + 1;
        LastBlock(before, at, [padByte], message);
      }
    }

    /** The block that has no room for the length. */
    method PadBlock(padByte: byte)
      requires core.alg.block > 0 && core.Holds(message, index)
      modifies this`index, core`h, core.buffer
      ensures core.Holds(message + ([padByte] + Zeros(core.alg.block - (old(index) + 1))), 0) && index == 0
    {
      ghost var before, at := core.buffer[..], index;
      core.Copy(index, [padByte]);
      index := index + 1;
      ZeroUntil(core.alg.block, before, at, [padByte]);
      core.Transform(before, at, [padByte] + Zeros(core.alg.block - (at + 1)), message);
      index := 0;
    }

    method LastBlock(ghost before: seq<byte>, ghost at: nat, ghost written: seq<byte>, ghost m: seq<byte>)
      requires IsSha2(core.alg) && at + |written| == index <= core.alg.block - core.alg.lengthSize
      requires Holding(core.alg, m, core.h, before, at) && core.buffer[..] == Stored(before, at, written)
      modifies this`index, core`h, core.buffer
      ensures core.Holds(m + (written + Zeros(core.alg.block - core.alg.lengthSize - old(index)) + Length(core.alg, lengthLow, lengthHigh)), 0)
    {
      var end := core.alg.block - core.alg.lengthSize;
      ghost var zeros := Zeros(end - index);
      ZeroUntil(end, before, at, written);
      StoreLength(before, at, written + zeros, m);
    }

    method StoreLength(ghost before: seq<byte>, ghost at: nat, ghost written: seq<byte>, ghost m: seq<byte>)
      requires IsSha2(core.alg) && at + |written| == index == core.alg.block - core.alg.lengthSize
      requires Holding(core.alg, m, core.h, before, at) && core.buffer[..] == Stored(before, at, written)
      modifies core`h, core.buffer
      ensures core.Holds(m + (written + Length(core.alg, lengthLow, lengthHigh)), 0)
    {
      core.Append(before, at, written, index, Length(core.alg, lengthLow, lengthHigh));
      core.Transform(before, at, written + Length(core.alg, lengthLow, lengthHigh), m);
    }

    /** `SHA224_256Finalize` and `SHA384_512Finalize`: pad, wipe the block, clear the length. */
    method Finalize(padByte: byte, ghost extra: nat)
      requires IsSha2(core.alg) && core.Holds(message, index) && lengthLow < Word(core.alg)
      requires Total(core.alg, lengthLow, lengthHigh) == 8 * |message| + extra
      modifies this, core, core.buffer
      ensures Finished() && corrupted == old(corrupted) && closed == Closed(core.alg, old(message), padByte, extra)
    {
      hide Fold, Whole, LengthBytes;
      HoldingUsed(core.alg, message, core.h, core.buffer[..], index);
      PadMessage(padByte, 8 * |message| + extra);
      closed := Closed(core.alg, message, padByte, extra);
      assert closed[..|closed| - 0] == closed;
      core.Copy(0, Zeros(core.buffer.Length));
      lengthHigh, lengthLow := 0, 0;
      computed := true;
    }

    /** `SHA256FinalBits` and `SHA512FinalBits`: one to seven more bits, and the padding. */
    method FinalBits(messageBits: byte, length: nat) returns (code: Code)
      requires Ready() && length < TWO_32
      requires !computed && corrupted == Success ==> Open()
      modifies this, core, core.buffer
      ensures length == 0 ==> code == Success && unchanged(this)
      ensures length > 0 && old(corrupted) != Success ==> code == old(corrupted) == corrupted
      ensures length > 0 && old(corrupted) == Success && old(computed) ==> code == StateError == corrupted
      ensures length >= 8 && old(corrupted) == Success && !old(computed) ==> code == BadParam == corrupted
      ensures 0 < length < 8 && old(corrupted) == Success && !old(computed) ==>
        code == Success && Finished() && closed == Closed(core.alg, old(message), PadByte(messageBits, length), length)
    {
      if length == 0 {
        return Success;
      }
      if corrupted != Success {
        return corrupted;
      }
      if computed {
        corrupted := StateError;
        return corrupted;
      }
      if length >= 8 {
        corrupted := BadParam;
        return corrupted;
      }
      var ignored := AddLength(length);
      Finalize((messageBits & Masks(length)) | Markbit(length), length);
      code := corrupted;
    }

    /** `SHA256Result` and its sisters. */
    method Result() returns (code: Code, digest: seq<byte>)
      requires corrupted == Success ==> (if computed then Finished() else Open())
      modifies this, core, core.buffer
      ensures code == corrupted == old(corrupted)
      ensures code == Success ==> Finished() && digest == core.alg.output(Fold(core.alg, core.alg.initial, closed))
      ensures code == Success && !old(computed) ==> digest == Digest(core.alg, old(message))
      ensures code == Success && old(computed) ==> closed == old(closed)
    {
      if corrupted != Success {
        return corrupted, [];
      }
      if !computed {
        Finalize(0x80, 0);
      }
      code, digest := Success, core.alg.output(core.h);
    }
  }

  lemma MoreZeros(written: seq<byte>, n: nat)
    ensures (written + Zeros(n)) + [0] == written + Zeros(n + 1)
  {
  }

  lemma TwoBlocks<S>(alg: Algorithm<S>, message: seq<byte>, mark: byte, used: nat, bits: nat)
    requires IsSha2(alg) && used == |message| % alg.block && used >= alg.block - alg.lengthSize
    ensures message + ([mark] + Zeros(alg.block - (used + 1))) + (([] + Zeros(alg.block - alg.lengthSize)) + LengthBytes(alg, bits))
         == message + Padding(alg, |message|, mark, bits)
  {
    var i, j := alg.block - (used + 1), alg.block - alg.lengthSize;
    assert Zeros(i) + Zeros(j) == Zeros(ZerosNeeded(alg, |message|));
    assert message + ([mark] + Zeros(i)) + (([] + Zeros(j)) + LengthBytes(alg, bits))
        == message + ([mark] + (Zeros(i) + Zeros(j)) + LengthBytes(alg, bits));
  }
}
