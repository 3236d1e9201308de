/** The construction that SHA-1, MD4, MD5 and SHA-2 share: the message is padded with a one bit,
    zeros and its length, cut into blocks, and the blocks are folded with a compression
    function (section 4 of RFC 3174, section 3 of RFC 1320 and RFC 1321, section 4 of RFC 6234).
    What the compression does is a parameter. */
module BlockHash {
  import opened Arithmetic

  type byte = bv8

  /** `block` and `lengthSize` count bytes; `output` reads the digest off the last state. */
  datatype Algorithm<!S> = Algorithm(initial: S, compress: (S, seq<byte>) -> S, output: S -> seq<byte>,
                                     block: nat, lengthSize: nat, bigEndian: bool)

  predicate Proper<S>(alg: Algorithm<S>) {
    0 < alg.lengthSize && alg.lengthSize + 1 < alg.block
  }

  // ----- folding -------------------------------------------------------------------------

  /** `data` is cut into blocks of `size` bytes without a rest. */
  predicate Whole(data: seq<byte>, size: nat)
    requires size > 0
  {
    data == [] || (|data| >= size && Whole(data[size..], size))
  }

  function Fold<S>(alg: Algorithm<S>, s: S, data: seq<byte>): S
    requires alg.block > 0
  {
    if |data| < alg.block then s
    else Fold(alg, alg.compress(s, data[..alg.block]), data[alg.block..])
  }

  lemma {:induction false} FoldConcat<S>(alg: Algorithm<S>, s: S, a: seq<byte>, b: seq<byte>)
    requires alg.block > 0 && Whole(a, alg.block)
    ensures Fold(alg, s, a + b) == Fold(alg, Fold(alg, s, a), b)
  {
    if a == [] {
      assert a + b == b;
    } else {
      assert (a + b)[..alg.block] == a[..alg.block];
      assert (a + b)[alg.block..] == a[alg.block..] + b;
      FoldConcat(alg, alg.compress(s, a[..alg.block]), a[alg.block..], b);
    }
  }

  lemma {:induction false} WholeConcat(a: seq<byte>, b: seq<byte>, size: nat)
    requires size > 0 && Whole(a, size) && Whole(b, size)
    ensures Whole(a + b, size)
  {
    if a == [] {
      assert a + b == b;
    } else {
      assert (a + b)[size..] == a[size..] + b;
      WholeConcat(a[size..], b, size);
    }
  }

  lemma {:induction false} WholeLength(data: seq<byte>, size: nat) returns (n: nat)
    requires size > 0 && Whole(data, size)
    ensures |data| == n * size
  {
    if data == [] {
      n := 0;
    } else {
      var m := WholeLength(data[size..], size);
      n := m + 1;
      assert n * size == m * size + size;
    }
  }

  lemma OneBlock<S>(alg: Algorithm<S>, s: S, block: seq<byte>)
    requires alg.block > 0 && |block| == alg.block
    ensures Whole(block, alg.block) && Fold(alg, s, block) == alg.compress(s, block)
  {
    assert block[..alg.block] == block && block[alg.block..] == [];
  }

  // ----- padding -------------------------------------------------------------------------

  function Zeros(n: nat): (bytes: seq<byte>)
    ensures |bytes| == n && forall k :: 0 <= k < n ==> bytes[k] == 0
  {
    seq(n, _ => 0)
  }

  function LittleEndian(x: nat, size: nat): (bytes: seq<byte>)
    ensures |bytes| == size
  {
    if size == 0 then [] else [(x % 256) as byte] + LittleEndian(x / 256, size - 1)
  }

  function BigEndian(x: nat, size: nat): (bytes: seq<byte>)
    ensures |bytes| == size
  {
    if size == 0 then [] else BigEndian(x / 256, size - 1) + [(x % 256) as byte]
  }

  function Pow256(n: nat): (p: nat)
    ensures p > 0
  {
    if n == 0 then 1 else 256 * Pow256(n - 1)
  }

  /** Only the low bytes of a length are written, so a counter that wraps does no harm. */
  lemma {:induction false} BytesWrap(x: nat, y: nat, k: nat, size: nat)
    requires x == y + k * Pow256(size)
    ensures LittleEndian(x, size) == LittleEndian(y, size)
    ensures BigEndian(x, size) == BigEndian(y, size)
  {
    if size > 0 {
      var half := k * Pow256(size - 1);
      assert k * Pow256(size) == 256 * half;
      ShiftByte(y, half);
      BytesWrap(x / 256, y / 256, k, size - 1);
    }
  }

  lemma ShiftByte(y: nat, half: nat)
    ensures (y + 256 * half) % 256 == y % 256 && (y + 256 * half) / 256 == y / 256 + half
  {
  }

  lemma HighPart(high: nat, size: nat)
    requires size > 0
    ensures high * Pow256(size) == 256 * (high * Pow256(size - 1))
    ensures forall low: nat :: low < Pow256(size) ==> low / 256 < Pow256(size - 1)
  {
  }

  /** A length in two words, as bytes. */
  lemma TwoWords(low: nat, high: nat, size: nat, more: nat)
    requires low < Pow256(size)
    ensures LittleEndian(low + high * Pow256(size), size + more) == LittleEndian(low, size) + LittleEndian(high, more)
    ensures BigEndian(low + high * Pow256(size), size + more) == BigEndian(high, more) + BigEndian(low, size)
  {
    TwoWordsLittle(low, high, size, more);
    TwoWordsBig(low, high, size, more);
  }

  lemma {:induction false} TwoWordsLittle(low: nat, high: nat, size: nat, more: nat)
    requires low < Pow256(size)
    ensures LittleEndian(low + high * Pow256(size), size + more) == LittleEndian(low, size) + LittleEndian(high, more)
  {
    if size == 0 {
      assert low == 0 && high * Pow256(0) == high;
    } else {
      hide Pow256;
      HighPart(high, size);
      ShiftByte(low, high * Pow256(size - 1));
      TwoWordsLittle(low / 256, high, size - 1, more);
    }
  }

  lemma {:induction false} TwoWordsBig(low: nat, high: nat, size: nat, more: nat)
    requires low < Pow256(size)
    ensures BigEndian(low + high * Pow256(size), size + more) == BigEndian(high, more) + BigEndian(low, size)
  {
    if size == 0 {
      assert low == 0 && high * Pow256(0) == high;
    } else {
      hide Pow256;
      HighPart(high, size);
      ShiftByte(low, high * Pow256(size - 1));
      TwoWordsBig(low / 256, high, size - 1, more);
    }
  }

  lemma WordSizes()
    ensures Pow256(4) == 0x1_0000_0000 && Pow256(8) == 0x1_0000_0000_0000_0000
    ensures Pow256(16) == 0x1_0000_0000_0000_0000 * 0x1_0000_0000_0000_0000
  {
    assert Pow256(1) == 256 && Pow256(2) == 0x1_0000 && Pow256(3) == 0x100_0000 && Pow256(4) == 0x1_0000_0000;
    assert Pow256(5) == 0x100_0000_0000 && Pow256(6) == 0x1_0000_0000_0000 && Pow256(7) == 0x100_0000_0000_0000;
    assert Pow256(9) == 256 * Pow256(8) && Pow256(10) == 256 * Pow256(9) && Pow256(11) == 256 * Pow256(10);
    assert Pow256(12) == 256 * Pow256(11) && Pow256(13) == 256 * Pow256(12) && Pow256(14) == 256 * Pow256(13);
  }

  /** Two 32-bit words, low one first. */
  lemma WordsLittle(low: nat, high: nat)
    requires low < 0x1_0000_0000
    ensures LittleEndian(low, 4) + LittleEndian(high, 4) == LittleEndian(low + high * 0x1_0000_0000, 8)
  {
    WordSizes();
    TwoWords(low, high, 4, 4);
  }

  function LengthBytes<S>(alg: Algorithm<S>, bits: nat): (bytes: seq<byte>)
    ensures |bytes| == alg.lengthSize
  {
    if alg.bigEndian then BigEndian(bits, alg.lengthSize) else LittleEndian(bits, alg.lengthSize)
  }

  /** Zero bytes between the byte with the one bit and the length, for `n` message bytes. */
  function ZerosNeeded<S>(alg: Algorithm<S>, n: nat): nat
    requires Proper(alg)
  {
    var used := n % alg.block;
    if used + 1 + alg.lengthSize <= alg.block then alg.block - alg.lengthSize - 1 - used
    else 2 * alg.block - alg.lengthSize - 1 - used
  }

  /** They are the fewest that make whole blocks. */
  lemma ZerosFewest<S>(alg: Algorithm<S>, n: nat)
    requires Proper(alg)
    ensures ZerosNeeded(alg, n) < alg.block
    ensures (n + 1 + ZerosNeeded(alg, n) + alg.lengthSize) % alg.block == 0
  {
    var d, used := n / alg.block, n % alg.block;
    assert n == d * alg.block + used;
    var e := if used + 1 + alg.lengthSize <= alg.block then d + 1 else d + 2;
    var total := n + 1 + ZerosNeeded(alg, n) + alg.lengthSize;
    assert e * alg.block == d * alg.block + (if e == d + 1 then alg.block else 2 * alg.block);
    DivModUnique(total, alg.block, e, 0);
  }

  /** What follows `n` message bytes: the last partial byte with its mark, zeros, the length. */
  function Padding<S>(alg: Algorithm<S>, n: nat, mark: byte, bits: nat): seq<byte>
    requires Proper(alg)
  {
    [mark] + Zeros(ZerosNeeded(alg, n)) + LengthBytes(alg, bits)
  }

  function Padded<S>(alg: Algorithm<S>, message: seq<byte>): seq<byte>
    requires Proper(alg)
  {
    message + Padding(alg, |message|, 0x80, 8 * |message|)
  }

  lemma PaddedLength<S>(alg: Algorithm<S>, message: seq<byte>)
    requires Proper(alg)
    ensures |Padded(alg, message)| % alg.block == 0
  {
    ZerosFewest(alg, |message|);
  }

  lemma DivTwice(x: nat, p: nat, r: nat)
    requires p > 0 && r == 256 * p
    ensures x / 256 / p == x / r
  {
    var y := x / 256;
    var d, q := y / p, y % p;
    DivModSplit(y, p);
    assert x == 256 * y + x % 256;
    assert 256 * (d * p) == d * r;
    DivModUnique(x, r, d, x % 256 + 256 * q);
  }

  /** Byte `k` of a number, counted from the low end. */
  function Digit256(x: nat, k: nat): byte {
    (x / Pow256(k) % 256) as byte
  }

  lemma NextDigit(x: nat, k: nat)
    ensures Digit256(x, 0) == (x % 256) as byte && Digit256(x / 256, k) == Digit256(x, k + 1)
  {
    DivTwice(x, Pow256(k), Pow256(k + 1));
  }

  lemma {:induction false} ByteAt(x: nat, size: nat, k: nat)
    requires k < size
    ensures LittleEndian(x, size)[k] == Digit256(x, k)
    ensures BigEndian(x, size)[size - 1 - k] == Digit256(x, k)
  {
    hide Digit256;
    NextDigit(x, if k > 0 then k - 1 else 0);
    if k > 0 {
      ByteAt(x / 256, size - 1, k - 1);
    }
  }

  /** What the padding comes to: the message, a one bit, fewer zeros than a block has bytes, and in
      the last bytes the low bytes of the length in bits, the lowest first or last; in all, whole
      blocks. */
  lemma PaddingMeans<S>(alg: Algorithm<S>, message: seq<byte>)
    requires Proper(alg)
    ensures var padded, n, size := Padded(alg, message), |message|, alg.lengthSize;
      var end := |padded| - size;
      && |padded| % alg.block == 0 && n < end < n + 1 + alg.block
      && padded[..n] == message && padded[n] == 0x80
      && (forall k :: n < k < end ==> padded[k] == 0)
      && forall k :: 0 <= k < size ==>
           padded[if alg.bigEndian then |padded| - 1 - k else end + k] == (8 * n / Pow256(k) % 256) as byte
  {
    hide LittleEndian, BigEndian, Pow256;
    var padded, n, size := Padded(alg, message), |message|, alg.lengthSize;
    ZerosFewest(alg, n);
    forall k | 0 <= k < size
      ensures padded[if alg.bigEndian then |padded| - 1 - k else |padded| - size + k] == (8 * n / Pow256(k) % 256) as byte
    {
      ByteAt(8 * n, size, k);
    }
  }

  /** A length counter that has wrapped gives the same length bytes. */
  lemma LengthWraps<S>(alg: Algorithm<S>, bits: nat, kept: nat, k: nat)
    requires bits == kept + k * Pow256(alg.lengthSize)
    ensures LengthBytes(alg, kept) == LengthBytes(alg, bits)
  {
    BytesWrap(bits, kept, k, alg.lengthSize);
  }

  /** Padding that arrives in up to two runs of zeros. */
  lemma PaddingPieces<S>(alg: Algorithm<S>, message: seq<byte>, i: nat, j: nat, length: seq<byte>)
    requires Proper(alg) && i + j == ZerosNeeded(alg, |message|) && length == LengthBytes(alg, 8 * |message|)
    ensures message + [0x80] + Zeros(i) + Zeros(j) + length == Padded(alg, message)
  {
    assert Zeros(i) + Zeros(j) == Zeros(ZerosNeeded(alg, |message|));
    assert message + [0x80] + Zeros(i) + Zeros(j) + length == message + ([0x80] + (Zeros(i) + Zeros(j)) + length);
  }

  /** Padding for blocks of 64 bytes, by what of it goes where: the length goes into the last 8. */
  lemma PaddedBlocks<S>(alg: Algorithm<S>, message: seq<byte>, used: nat, length: seq<byte>)
    requires alg.block == 64 && alg.lengthSize == 8 && used == |message| % 64
    requires length == LengthBytes(alg, 8 * |message|)
    ensures used > 55 ==> message + ([0x80] + Zeros(63 - used)) + ([] + Zeros(56) + length) == Padded(alg, message)
    ensures used <= 55 ==> message + ([0x80] + Zeros(55 - used) + length) == Padded(alg, message)
  {
    if used > 55 {
      PaddingPieces(alg, message, 63 - used, 56, length);
      assert message + ([0x80] + Zeros(63 - used)) + ([] + Zeros(56) + length) == message + [0x80] + Zeros(63 - used) + Zeros(56) + length;
    } else {
      PaddingPieces(alg, message, 55 - used, 0, length);
      assert message + ([0x80] + Zeros(55 - used) + length) == message + [0x80] + Zeros(55 - used) + Zeros(0) + length;
    }
  }

  /** The digest of a byte string. */
  function Digest<S>(alg: Algorithm<S>, message: seq<byte>): seq<byte>
    requires Proper(alg)
  {
    alg.output(Fold(alg, alg.initial, Padded(alg, message)))
  }

  // ----- a context in the middle of a message --------------------------------------------

  /** `message` has been taken in: its whole blocks are folded into `h`, the rest is at the
      front of the buffer. */
  ghost predicate Holding<S>(alg: Algorithm<S>, message: seq<byte>, h: S, buffer: seq<byte>, used: nat) {
    && used < alg.block == |buffer| && used <= |message|
    && Whole(message[..|message| - used], alg.block)
    && h == Fold(alg, alg.initial, message[..|message| - used])
    && message[|message| - used..] == buffer[..used]
  }

  lemma HoldingUsed<S>(alg: Algorithm<S>, message: seq<byte>, h: S, buffer: seq<byte>, used: nat)
    requires Holding(alg, message, h, buffer, used)
    ensures used == |message| % alg.block
  {
    var n := WholeLength(message[..|message| - used], alg.block);
    DivModUnique(|message|, alg.block, n, used);
  }

  function Stored(buffer: seq<byte>, at: nat, bytes: seq<byte>): (after: seq<byte>)
    requires at + |bytes| <= |buffer|
    ensures |after| == |buffer|
  {
    buffer[..at] + bytes + buffer[at + |bytes|..]
  }

  /** Bytes that do not fill the buffer. */
  lemma StoredHolds<S>(alg: Algorithm<S>, message: seq<byte>, h: S, buffer: seq<byte>, used: nat, bytes: seq<byte>)
    requires Holding(alg, message, h, buffer, used) && used + |bytes| < alg.block
    ensures Holding(alg, message + bytes, h, Stored(buffer, used, bytes), used + |bytes|)
  {
    var n := |message| - used;
    assert (message + bytes)[..n] == message[..n];
    assert (message + bytes)[n..] == message[n..] + bytes;
    assert Stored(buffer, used, bytes)[..used + |bytes|] == buffer[..used] + bytes;
  }

  /** Two writes behind one another are one. */
  lemma StoredTwice(buffer: seq<byte>, at: nat, x: seq<byte>, y: seq<byte>)
    requires at + |x| + |y| <= |buffer|
    ensures Stored(Stored(buffer, at, x), at + |x|, y) == Stored(buffer, at, x + y)
  {
  }

  /** Bytes that fill it: the full buffer is compressed. */
  lemma FilledHolds<S>(alg: Algorithm<S>, message: seq<byte>, h: S, buffer: seq<byte>, used: nat, bytes: seq<byte>, other: seq<byte>)
    requires Holding(alg, message, h, buffer, used) && used + |bytes| == alg.block == |other|
    ensures Holding(alg, message + bytes, alg.compress(h, Stored(buffer, used, bytes)), other, 0)
  {
    var done, full := message[..|message| - used], Stored(buffer, used, bytes);
    assert full == buffer[..used] + bytes;
    OneBlock(alg, h, full);
    WholeConcat(done, full, alg.block);
    FoldConcat(alg, alg.initial, done, full);
    var after := message + bytes;
    assert after == done + full;
    assert after[..|after| - 0] == after;
  }

  /** A block straight from the caller while the buffer is empty. */
  lemma BlockHolds<S>(alg: Algorithm<S>, message: seq<byte>, h: S, buffer: seq<byte>, block: seq<byte>)
    requires Holding(alg, message, h, buffer, 0) && |block| == alg.block
    ensures Holding(alg, message + block, alg.compress(h, block), buffer, 0)
  {
    FilledHolds(alg, message, h, buffer, 0, block, buffer);
    assert Stored(buffer, 0, block) == block;
  }

  /** After the padding nothing is left in the buffer, and the state is that of the digest. */
  lemma AllFolded<S>(alg: Algorithm<S>, message: seq<byte>, h: S, buffer: seq<byte>)
    requires Proper(alg) && Holding(alg, Padded(alg, message), h, buffer, 0)
    ensures alg.output(h) == Digest(alg, message)
  {
    var padded := Padded(alg, message);
    assert padded[..|padded| - 0] == padded;
  }

  lemma DataNext(data: seq<byte>, i: nat, j: nat, message: seq<byte>, before: seq<byte>)
    requires i <= j <= |data| && message == before + data[..i]
    ensures message + data[i..j] == before + data[..j]
  {
    assert data[..j] == data[..i] + data[i..j];
  }

  /** A counter modulo a power of two, and its low bits. */
  lemma CounterAdds(m: nat, n: nat, modulus: nat)
    requires modulus > 0
    ensures (m % modulus + n) % modulus == (m + n) % modulus
  {
    var d, e := m / modulus, (m % modulus + n) / modulus;
    assert m == d * modulus + m % modulus;
    assert m % modulus + n == e * modulus + (m % modulus + n) % modulus;
    assert m + n == (d + e) * modulus + (m % modulus + n) % modulus by {
      assert (d + e) * modulus == d * modulus + e * modulus;
    }
    DivModUnique(m + n, modulus, d + e, (m % modulus + n) % modulus);
  }

  /** The chaining words and the block buffer of a context. */
  class BlockBuffer<S> {
    const alg: Algorithm<S>
    const buffer: array<byte>
    var h: S

    ghost predicate Holds(message: seq<byte>, used: nat)
      reads this, buffer
    {
      Holding(alg, message, h, buffer[..], used)
    }

    constructor (alg: Algorithm<S>)
      requires alg.block > 0
      ensures fresh(buffer) && Holds([], 0) && this.alg == alg
    {
      this.alg := alg;
      buffer := new byte[alg.block](_ => 0);
      h := alg.initial;
    }

    constructor CopyOf(other: BlockBuffer<S>)
      ensures fresh(buffer) && alg == other.alg && h == other.h && buffer[..] == other.buffer[..]
    {
      alg, h := other.alg, other.h;
      buffer := new byte[other.buffer.Length](i requires 0 <= i < other.buffer.Length reads other.buffer => other.buffer[i]);
    }

    method Copy(at: nat, bytes: seq<byte>)
      requires at + |bytes| <= buffer.Length
      modifies buffer
      ensures buffer[..] == Stored(old(buffer[..]), at, bytes)
    {
      forall i | 0 <= i < |bytes| {
        buffer[at + i] := bytes[i];
      }
    }

    /** Bytes that leave room in the buffer. */
    method Keep(at: nat, bytes: seq<byte>, ghost message: seq<byte>)
      requires Holds(message, at) && at + |bytes| < alg.block
      modifies buffer
      ensures Holds(message + bytes, at + |bytes|)
    {
      StoredHolds(alg, message, h, buffer[..], at, bytes);
      Copy(at, bytes);
    }

    /** Bytes that fill it. */
    method Fill(at: nat, bytes: seq<byte>, ghost message: seq<byte>)
      requires Holds(message, at) && at + |bytes| == alg.block
      modifies this`h, buffer
      ensures Holds(message + bytes, 0)
    {
      ghost var full := Stored(buffer[..], at, bytes);
      FilledHolds(alg, message, h, buffer[..], at, bytes, full);
      Copy(at, bytes);
      h := alg.compress(h, buffer[..]);
    }

    method Process(block: seq<byte>, ghost message: seq<byte>)
      requires Holds(message, 0) && |block| == alg.block
      modifies this`h
      ensures Holds(message + block, 0)
    {
      BlockHolds(alg, message, h, buffer[..], block);
      h := alg.compress(h, block);
    }

    /** Compresses the buffer once the `tail` written behind `at` has filled it. */
    method Transform(ghost before: seq<byte>, ghost at: nat, ghost tail: seq<byte>, ghost message: seq<byte>)
      requires Holding(alg, message, h, before, at) && at + |tail| == alg.block
      requires buffer[..] == Stored(before, at, tail)
      modifies this`h
      ensures Holds(message + tail, 0)
    {
      FilledHolds(alg, message, h, before, at, tail, buffer[..]);
      h := alg.compress(h, buffer[..]);
    }

    /** `memcpy` or `memset` behind what has been written since `before`. */
    method Append(ghost before: seq<byte>, ghost at: nat, ghost written: seq<byte>, place: nat, bytes: seq<byte>)
      requires at + |written| == place && place + |bytes| <= buffer.Length == |before|
      requires buffer[..] == Stored(before, at, written)
      modifies buffer
      ensures buffer[..] == Stored(before, at, written + bytes)
    {
      StoredTwice(before, at, written, bytes);
      Copy(place, bytes);
    }

    /** The end of a last block: zeros up to the length, the length, and one more compression. */
    method Close(ghost before: seq<byte>, ghost at: nat, ghost written: seq<byte>, place: nat, length: seq<byte>, ghost message: seq<byte>)
      requires at + |written| == place && place + |length| <= alg.block
      requires Holding(alg, message, h, before, at) && buffer[..] == Stored(before, at, written)
      modifies this`h, buffer
      ensures Holds(message + (written + Zeros(alg.block - |length| - place) + length), 0)
    {
      Append(before, at, written, place, Zeros(alg.block - |length| - place));
      Append(before, at, written + Zeros(alg.block - |length| - place), alg.block - |length|, length);
      Transform(before, at, written + Zeros(alg.block - |length| - place) + length, message);
    }
  }
}
