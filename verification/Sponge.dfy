/** The Keccak sponge of thirdparty/sha3/KeccakSponge.c.  The permutation and the lane
    arithmetic are parameters; what is modelled is the bit queue around them. */
module Sponge {
  import opened Arithmetic
  import opened Bits

  /** What the sponge is built on: the initial permutation state, absorbing one block,
      permuting, and reading the first `n` bytes of a state. */
  datatype Keccak<!S> = Keccak(initial: S, absorb: (S, seq<bv8>) -> S, permute: S -> S, extract: (S, nat) -> seq<bv8>)

  ghost predicate Sane<S(!new)>(keccak: Keccak<S>) {
    forall s: S, n: nat :: |keccak.extract(s, n)| == n
  }

  /** KeccakMaximumRateInBytes. */
  const QUEUE_SIZE := 192

  // ----- specification: sections 4 and 5.1 of FIPS 202 -----------------------------------

  function AbsorbBlocks<S>(keccak: Keccak<S>, s: S, blocks: seq<seq<bv8>>): S {
    if blocks == [] then s
    else keccak.absorb(AbsorbBlocks(keccak, s, blocks[..|blocks| - 1]), blocks[|blocks| - 1])
  }

  lemma AbsorbSnoc<S>(keccak: Keccak<S>, s: S, blocks: seq<seq<bv8>>, block: seq<bv8>)
    ensures AbsorbBlocks(keccak, s, blocks + [block]) == keccak.absorb(AbsorbBlocks(keccak, s, blocks), block)
  {
    assert (blocks + [block])[..|blocks|] == blocks;
  }

  /** The bit string the blocks are cut from. */
  function Joined(blocks: seq<seq<bv8>>): seq<bool> {
    if blocks == [] then [] else Joined(blocks[..|blocks| - 1]) + ToBits(blocks[|blocks| - 1])
  }

  lemma JoinedSnoc(blocks: seq<seq<bv8>>, block: seq<bv8>)
    ensures Joined(blocks + [block]) == Joined(blocks) + ToBits(block)
  {
    assert (blocks + [block])[..|blocks|] == blocks;
  }

  ghost predicate RateSized(blocks: seq<seq<bv8>>, rate: nat) {
    forall k :: 0 <= k < |blocks| ==> 8 * |blocks[k]| == rate
  }

  lemma {:induction false} JoinedLength(blocks: seq<seq<bv8>>, rate: nat)
    requires RateSized(blocks, rate)
    ensures |Joined(blocks)| == |blocks| * rate
  {
    if blocks != [] {
      JoinedLength(blocks[..|blocks| - 1], rate);
      assert |blocks| * rate == (|blocks| - 1) * rate + rate;
    }
  }

  function Zeros(n: nat): (bits: seq<bool>)
    ensures |bits| == n && forall k :: 0 <= k < n ==> !bits[k]
  {
    seq(n, _ => false)
  }

  /** The multi-rate padding pad10*1 of section 5.1: for a message of `m` bits, a one, the
      fewest zeros that fill the last block but one bit, and a one. */
  function Pad(rate: nat, m: nat): seq<bool>
    requires rate > 2
  {
    [true] + Zeros((2 * rate - 2 - m % rate) % rate) + [true]
  }

  /** What the padding comes to: ones at both ends, fewer zeros between them than a block has bits,
      and whole blocks together with the message. */
  lemma PadMeans(rate: nat, m: nat)
    requires rate > 2
    ensures var pad := Pad(rate, m);
      && 2 <= |pad| < rate + 2 && pad[0] && pad[|pad| - 1]
      && (forall k :: 0 < k < |pad| - 1 ==> !pad[k])
      && (m + |pad|) % rate == 0
  {
    var n, q := m / rate, m % rate;
    assert m == n * rate + q;
    if q + 1 < rate {
      assert (2 * rate - 2 - q) % rate == rate - 2 - q by { DivModUnique(2 * rate - 2 - q, rate, 1, rate - 2 - q); }
      assert (n + 1) * rate == n * rate + rate;
      DivModUnique(m + rate - q, rate, n + 1, 0);
    } else {
      DivModUnique(rate - 1, rate, 0, rate - 1);
      assert (n + 2) * rate == n * rate + 2 * rate;
      DivModUnique(m + rate + 1, rate, n + 2, 0);
    }
  }

  /** The output stream: rate-sized outputs of successive permutations. */
  function Permuted<S>(keccak: Keccak<S>, s: S, k: nat): S {
    if k == 0 then s else keccak.permute(Permuted(keccak, s, k - 1))
  }

  function Stream<S>(keccak: Keccak<S>, s: S, rateBytes: nat, blocks: nat): seq<bv8> {
    if blocks == 0 then []
    else Stream(keccak, s, rateBytes, blocks - 1) + keccak.extract(Permuted(keccak, s, blocks - 1), rateBytes)
  }

  lemma {:induction false} StreamLength<S(!new)>(keccak: Keccak<S>, s: S, rateBytes: nat, blocks: nat)
    requires Sane(keccak)
    ensures |Stream(keccak, s, rateBytes, blocks)| == blocks * rateBytes
  {
    if blocks > 0 {
      StreamLength(keccak, s, rateBytes, blocks - 1);
      assert blocks * rateBytes == (blocks - 1) * rateBytes + rateBytes;
    }
  }

  lemma {:induction false} StreamPrefix<S>(keccak: Keccak<S>, s: S, rateBytes: nat, few: nat, many: nat)
    requires few <= many
    ensures Stream(keccak, s, rateBytes, few) <= Stream(keccak, s, rateBytes, many)
    decreases many
  {
    if few < many {
      StreamPrefix(keccak, s, rateBytes, few, many - 1);
    }
  }

  /** The first `n` bytes of output of a sponge that starts squeezing in state `s`. */
  ghost function Output<S(!new)>(keccak: Keccak<S>, s: S, rateBytes: nat, n: nat): (output: seq<bv8>)
    requires Sane(keccak) && rateBytes > 0
    ensures |output| == n
  {
    StreamLength(keccak, s, rateBytes, n / rateBytes + 1);
    EnoughBlocks(rateBytes, n);
    Stream(keccak, s, rateBytes, n / rateBytes + 1)[..n]
  }

  lemma EnoughBlocks(rateBytes: nat, n: nat)
    requires rateBytes > 0
    ensures n < (n / rateBytes + 1) * rateBytes
  {
  }

  lemma StreamCut<S(!new)>(keccak: Keccak<S>, s: S, rateBytes: nat, p: nat, q: nat, many: nat, n: nat)
    requires Sane(keccak) && q <= rateBytes && p < many
    requires n == |Stream(keccak, s, rateBytes, p)| + q <= |Stream(keccak, s, rateBytes, many)|
    ensures Stream(keccak, s, rateBytes, many)[..n]
         == Stream(keccak, s, rateBytes, p) + keccak.extract(Permuted(keccak, s, p), rateBytes)[..q]
  {
    StreamPrefix(keccak, s, rateBytes, p + 1, many);
    PrefixOfPrefix(Stream(keccak, s, rateBytes, p + 1), Stream(keccak, s, rateBytes, many), n);
    PrefixOfSum(Stream(keccak, s, rateBytes, p), keccak.extract(Permuted(keccak, s, p), rateBytes), n, q);
  }

  /** What has been read when `p` blocks and `q` bytes of the next have gone out. */
  lemma OutputReached<S(!new)>(keccak: Keccak<S>, s: S, rateBytes: nat, p: nat, q: nat, output: seq<bv8>)
    requires Sane(keccak) && 0 < rateBytes && q <= rateBytes
    requires output == Stream(keccak, s, rateBytes, p) + keccak.extract(Permuted(keccak, s, p), rateBytes)[..q]
    ensures output == Output(keccak, s, rateBytes, |output|)
  {
    var n := |output|;
    StreamLength(keccak, s, rateBytes, p);
    BlocksIn(rateBytes, p, q, n);
    StreamLength(keccak, s, rateBytes, n / rateBytes + 1);
    EnoughBlocks(rateBytes, n);
    StreamCut(keccak, s, rateBytes, p, q, n / rateBytes + 1, n);
  }

  /** A longer output begins with every shorter one. */
  lemma OutputPrefix<S(!new)>(keccak: Keccak<S>, s: S, rateBytes: nat, few: nat, many: nat)
    requires Sane(keccak) && 0 < rateBytes && few <= many
    ensures Output(keccak, s, rateBytes, few) == Output(keccak, s, rateBytes, many)[..few]
  {
    var m, n := few / rateBytes + 1, many / rateBytes + 1;
    StreamLength(keccak, s, rateBytes, m);
    StreamLength(keccak, s, rateBytes, n);
    EnoughBlocks(rateBytes, few);
    EnoughBlocks(rateBytes, many);
    DivMonotone(few, many, rateBytes);
    StreamPrefix(keccak, s, rateBytes, m, n);
    PrefixOfPrefix(Stream(keccak, s, rateBytes, m), Stream(keccak, s, rateBytes, n), few);
  }

  /** An output no longer than a block is read off the state the absorbing phase left, and what
      follows the first block is the output of the permuted state. */
  lemma OutputMeans<S(!new)>(keccak: Keccak<S>, s: S, rateBytes: nat, n: nat)
    requires Sane(keccak) && 0 < rateBytes
    ensures n <= rateBytes ==> Output(keccak, s, rateBytes, n) == keccak.extract(s, rateBytes)[..n]
    ensures n > rateBytes ==>
      Output(keccak, s, rateBytes, n) == keccak.extract(s, rateBytes) + Output(keccak, keccak.permute(s), rateBytes, n - rateBytes)
  {
    var k := n / rateBytes;
    var first, rest := keccak.extract(s, rateBytes), Stream(keccak, keccak.permute(s), rateBytes, k);
    StreamBegins(keccak, s, rateBytes, k);
    EnoughBlocks(rateBytes, n);
    StreamLength(keccak, s, rateBytes, k + 1);
    if n <= rateBytes {
      assert (first + rest)[..n] == first[..n];
    } else {
      DivModSplit(n, rateBytes);
      DivModUnique(n - rateBytes, rateBytes, k - 1, n % rateBytes);
      assert (first + rest)[..n] == first + rest[..n - rateBytes];
    }
  }

  lemma {:induction false} PermutedLater<S>(keccak: Keccak<S>, s: S, k: nat)
    ensures Permuted(keccak, keccak.permute(s), k) == Permuted(keccak, s, k + 1)
  {
    if k > 0 {
      PermutedLater(keccak, s, k - 1);
    }
  }

  lemma {:induction false} StreamBegins<S>(keccak: Keccak<S>, s: S, rateBytes: nat, blocks: nat)
    ensures Stream(keccak, s, rateBytes, blocks + 1) == keccak.extract(s, rateBytes) + Stream(keccak, keccak.permute(s), rateBytes, blocks)
  {
    if blocks == 0 {
      assert Stream(keccak, s, rateBytes, 1) == [] + keccak.extract(s, rateBytes);
    } else {
      StreamBegins(keccak, s, rateBytes, blocks - 1);
      PermutedLater(keccak, s, blocks - 1);
    }
  }

  lemma BlocksIn(rateBytes: nat, p: nat, q: nat, n: nat)
    requires 0 < rateBytes && n == p * rateBytes + q
    ensures p <= n / rateBytes
  {
    DivModUnique(p * rateBytes, rateBytes, p, 0);
    DivMonotone(p * rateBytes, n, rateBytes);
  }

  lemma PrefixOfPrefix(few: seq<bv8>, many: seq<bv8>, n: nat)
    requires few <= many && n <= |few|
    ensures many[..n] == few[..n]
  {
  }

  lemma PrefixOfSum(front: seq<bv8>, back: seq<bv8>, n: nat, q: nat)
    requires n == |front| + q && q <= |back|
    ensures (front + back)[..n] == front + back[..q]
  {
  }

  /** The state after absorbing `message` with its padding; `blocks` is how it is cut. */
  ghost predicate Absorbed<S>(keccak: Keccak<S>, rate: nat, message: seq<bool>, blocks: seq<seq<bv8>>, s: S)
    requires rate > 2
  {
    && RateSized(blocks, rate)
    && Joined(blocks) == message + Pad(rate, |message|)
    && s == AbsorbBlocks(keccak, keccak.initial, blocks)
  }

  // ----- the absorbing phase -------------------------------------------------------------

  /** The bits of a byte from `k` up are zero. */
  ghost predicate HighClear(b: bv8, k: nat) {
    forall t :: k <= t < 8 ==> !Bit(b, t)
  }

  /** `message` has been taken in: the whole blocks are absorbed, the first `at` bytes and `k`
      bits of the queue are the rest, and a partial last byte has zeros above them. */
  ghost predicate Holding<S>(keccak: Keccak<S>, rate: nat, message: seq<bool>, blocks: seq<seq<bv8>>,
                             s: S, queue: seq<bv8>, at: nat, k: nat) {
    && 8 * |queue| == rate && at < |queue| && k < 8
    && RateSized(blocks, rate)
    && s == AbsorbBlocks(keccak, keccak.initial, blocks)
    && message == Joined(blocks) + ToBits(queue)[..8 * at + k]
    && (k != 0 ==> HighClear(queue[at], k))
  }

  /** The queue after copying `bytes` behind its first `at` bytes. */
  function Copied(queue: seq<bv8>, at: nat, bytes: seq<bv8>): (after: seq<bv8>)
    requires at + |bytes| <= |queue|
    ensures |after| == |queue|
  {
    queue[..at] + bytes + queue[at + |bytes|..]
  }

  lemma CopiedBits(queue: seq<bv8>, at: nat, bytes: seq<bv8>)
    requires at + |bytes| <= |queue|
    ensures ToBits(Copied(queue, at, bytes))[..8 * (at + |bytes|)] == ToBits(queue)[..8 * at] + ToBits(bytes)
  {
    var after := Copied(queue, at, bytes);
    assert after == (queue[..at] + bytes) + queue[at + |bytes|..];
    ToBitsConcat(queue[..at] + bytes, queue[at + |bytes|..]);
    ToBitsConcat(queue[..at], bytes);
    ToBitsSlice(queue, 0, at);
    assert queue[0..at] == queue[..at];
  }

  /** A full queue, aligned to a byte, becomes the next block. */
  lemma QueueAbsorbed<S>(keccak: Keccak<S>, rate: nat, message: seq<bool>, blocks: seq<seq<bv8>>, s: S, queue: seq<bv8>)
    requires 8 * |queue| == rate > 0 && RateSized(blocks, rate)
    requires s == AbsorbBlocks(keccak, keccak.initial, blocks)
    requires message == Joined(blocks) + ToBits(queue)
    ensures Holding(keccak, rate, message, blocks + [queue], keccak.absorb(s, queue), queue, 0, 0)
  {
    AbsorbSnoc(keccak, keccak.initial, blocks, queue);
    JoinedSnoc(blocks, queue);
  }

  lemma TailGrows(message: seq<bool>, front: seq<bool>, tail: seq<bool>, more: seq<bool>)
    requires message == front + tail
    ensures message + more == front + (tail + more)
  {
  }

  lemma BytesCopied<S>(keccak: Keccak<S>, rate: nat, message: seq<bool>, blocks: seq<seq<bv8>>, s: S,
                       queue: seq<bv8>, at: nat, bytes: seq<bv8>)
    requires Holding(keccak, rate, message, blocks, s, queue, at, 0)
    requires at + |bytes| <= |queue|
    ensures message + ToBits(bytes) == Joined(blocks) + ToBits(Copied(queue, at, bytes))[..8 * (at + |bytes|)]
    ensures at + |bytes| < |queue| ==>
      Holding(keccak, rate, message + ToBits(bytes), blocks, s, Copied(queue, at, bytes), at + |bytes|, 0)
  {
    CopiedBits(queue, at, bytes);
    TailGrows(message, Joined(blocks), ToBits(queue)[..8 * at], ToBits(bytes));
  }

  /** The last partial byte goes behind a byte-aligned queue, masked. */
  lemma PartialByteStored<S>(keccak: Keccak<S>, rate: nat, message: seq<bool>, blocks: seq<seq<bv8>>, s: S,
                             queue: seq<bv8>, at: nat, byte: bv8, k: nat)
    requires Holding(keccak, rate, message, blocks, s, queue, at, 0) && 0 < k < 8
    ensures Holding(keccak, rate, message + ByteBits(byte)[..k], blocks, s,
                    Copied(queue, at, [byte & (OneBit(k) - 1)]), at, k)
  {
    var masked := byte & (OneBit(k) - 1);
    MaskedBits(byte, k);
    var after := Copied(queue, at, [masked]);
    CopiedBits(queue, at, [masked]);
    ToBitsOne(masked);
    var tail := ToBits(queue)[..8 * at];
    assert ToBits(after)[..8 * at + k] == ToBits(after)[..8 * (at + 1)][..8 * at + k] == tail + ByteBits(masked)[..k];
    TailGrows(message, Joined(blocks), tail, ByteBits(byte)[..k]);
  }

  lemma MaskedBits(byte: bv8, k: nat)
    requires 0 < k < 8
    ensures ByteBits(byte & (OneBit(k) - 1))[..k] == ByteBits(byte)[..k]
    ensures HighClear(byte & (OneBit(k) - 1), k)
  {
    forall t: nat | t < 8
      ensures Bit(byte & (OneBit(k) - 1), t) == (t < k && Bit(byte, t))
    {
      LowBits(byte, k, t);
    }
  }

  // ----- padding -------------------------------------------------------------------------

  /** The padding after `q` bits of a block of `rate` bits. */
  lemma PadInBlock(rate: nat, n: nat, q: nat)
    requires rate > 2 && q < rate
    ensures q + 1 == rate ==> Pad(rate, n * rate + q) == [true] + Zeros(rate - 1) + [true]
    ensures q + 1 < rate ==> Pad(rate, n * rate + q) == [true] + Zeros(rate - 2 - q) + [true]
  {
    DivModUnique(n * rate + q, rate, n, q);
    if q + 1 < rate {
      DivModUnique(2 * rate - 2 - q, rate, 1, rate - 2 - q);
    } else {
      DivModUnique(2 * rate - 2 - q, rate, 0, rate - 1);
    }
  }

  function ZeroBytes(n: nat): (bytes: seq<bv8>)
    ensures |bytes| == n && forall k :: 0 <= k < n ==> bytes[k] == 0
  {
    seq(n, _ => 0)
  }

  lemma {:induction false} ZeroBytesBits(n: nat)
    ensures ToBits(ZeroBytes(n)) == Zeros(8 * n)
  {
    if n > 0 {
      ZeroBytesBits(n - 1);
      assert ZeroBytes(n)[..n - 1] == ZeroBytes(n - 1);
      forall t: nat | t < 8
        ensures !Bit(0, t)
      {
        ZeroBits(t);
      }
      assert ToBits(ZeroBytes(n)) == Zeros(8 * (n - 1)) + ByteBits(0);
    }
  }

  /** The byte the end mark goes into: a partial byte, or one that has been cleared. */
  function LastByte(queue: seq<bv8>, at: nat, k: nat): bv8
    requires at < |queue|
  {
    if k == 0 then 0 else queue[at]
  }

  /** The queue after the bytes not in use are cleared and bit `k` of byte `at` is set. */
  function MarkEnd(queue: seq<bv8>, at: nat, k: nat): (after: seq<bv8>)
    requires at < |queue| && k < 8
    ensures |after| == |queue|
  {
    queue[..at] + [LastByte(queue, at, k) | OneBit(k)] + ZeroBytes(|queue| - at - 1)
  }

  function SetLastBit(queue: seq<bv8>): (after: seq<bv8>)
    requires queue != []
    ensures |after| == |queue|
  {
    queue[|queue| - 1 := queue[|queue| - 1] | OneBit(7)]
  }

  lemma SetLastBitBits(queue: seq<bv8>, last: nat)
    requires queue != [] && last == 8 * |queue| - 1
    ensures ToBits(SetLastBit(queue)) == ToBits(queue)[..last] + [true]
  {
    var front, b := queue[..|queue| - 1], queue[|queue| - 1];
    assert SetLastBit(queue)[..|queue| - 1] == front;
    LastBitSet(b);
    WithoutLast(ToBits(front), ByteBits(b), last);
  }

  lemma LastBitSet(b: bv8)
    ensures ByteBits(b | OneBit(7)) == ByteBits(b)[..7] + [true]
  {
    var bits := ByteBits(b)[..7] + [true];
    forall t: nat | t < 8
      ensures ByteBits(b | OneBit(7))[t] == bits[t]
    {
      SetBit(b, 7, t);
    }
  }

  lemma WithoutLast(front: seq<bool>, bits: seq<bool>, last: nat)
    requires |bits| == 8 && last == |front| + 7
    ensures front + (bits[..7] + [true]) == (front + bits)[..last] + [true]
  {
  }

  lemma MarkedByte(b: bv8, k: nat)
    requires k < 8 && HighClear(b, k)
    ensures ByteBits(b | OneBit(k)) == ByteBits(b)[..k] + [true] + Zeros(7 - k)
  {
    var bits := ByteBits(b)[..k] + [true] + Zeros(7 - k);
    forall t: nat | t < 8
      ensures ByteBits(b | OneBit(k))[t] == bits[t]
    {
      SetBit(b, k, t);
    }
  }

  /** Zeros after a one run on into the zeros that follow. */
  lemma ZerosRunOn(front: seq<bool>, part: seq<bool>, i: nat, j: nat, n: nat)
    requires n == i + j
    ensures (front + (part + [true] + Zeros(i))) + Zeros(j) == (front + part) + ([true] + Zeros(n))
  {
  }

  lemma MarkEndBits(queue: seq<bv8>, at: nat, k: nat, n: nat)
    requires at < |queue| && k < 8 && (k != 0 ==> HighClear(queue[at], k)) && n == 8 * |queue| - 8 * at - k - 1
    ensures ToBits(MarkEnd(queue, at, k)) == ToBits(queue)[..8 * at + k] + ([true] + Zeros(n))
  {
    hide HighClear;
    LastByteBits(queue, at, k);
    FrontBits(queue, at, k);
    MarkedEnd(queue[..at], LastByte(queue, at, k), k, |queue| - at - 1, n);
  }

  lemma LastByteBits(queue: seq<bv8>, at: nat, k: nat)
    requires at < |queue| && k < 8 && (k != 0 ==> HighClear(queue[at], k))
    ensures HighClear(LastByte(queue, at, k), k)
    ensures ByteBits(LastByte(queue, at, k))[..k] == ByteBits(queue[at])[..k]
  {
    forall t: nat | t < 8
      ensures !Bit(0, t)
    {
      ZeroBits(t);
    }
  }

  lemma MarkedEnd(front: seq<bv8>, b: bv8, k: nat, rest: nat, n: nat)
    requires k < 8 && HighClear(b, k) && n == 7 - k + 8 * rest
    ensures ToBits(front + [b | OneBit(k)] + ZeroBytes(rest)) == (ToBits(front) + ByteBits(b)[..k]) + ([true] + Zeros(n))
  {
    MarkedByte(b, k);
    MarkedParts(front, b | OneBit(k), rest);
    ZerosRunOn(ToBits(front), ByteBits(b)[..k], 7 - k, 8 * rest, n);
  }

  lemma MarkedParts(front: seq<bv8>, b: bv8, rest: nat)
    ensures ToBits(front + [b] + ZeroBytes(rest)) == (ToBits(front) + ByteBits(b)) + Zeros(8 * rest)
  {
    ToBitsConcat(front + [b], ZeroBytes(rest));
    ToBitsConcat(front, [b]);
    ToBitsOne(b);
    ZeroBytesBits(rest);
  }

  lemma FrontBits(queue: seq<bv8>, at: nat, k: nat)
    requires at < |queue| && k < 8
    ensures ToBits(queue)[..8 * at + k] == ToBits(queue[..at]) + ByteBits(queue[at])[..k]
  {
    AroundElement(queue, at);
    BitsBefore(queue, queue[..at], queue[at], queue[at + 1..], 8 * at + k, k);
  }

  lemma AroundElement<T>(s: seq<T>, at: nat)
    requires at < |s|
    ensures s == (s[..at] + [s[at]]) + s[at + 1..]
  {
  }

  lemma BitsBefore(bytes: seq<bv8>, front: seq<bv8>, b: bv8, rest: seq<bv8>, n: nat, k: nat)
    requires bytes == (front + [b]) + rest && n == 8 * |front| + k && k < 8
    ensures n <= |ToBits(bytes)| && ToBits(bytes)[..n] == ToBits(front) + ByteBits(b)[..k]
  {
    ToBitsConcat(front + [b], rest);
    ToBitsConcat(front, [b]);
    ToBitsOne(b);
    FrontOf(ToBits(front), ByteBits(b), ToBits(rest), n, k);
  }

  lemma FrontOf(a: seq<bool>, b: seq<bool>, c: seq<bool>, n: nat, k: nat)
    requires k <= |b| && n == |a| + k
    ensures ((a + b) + c)[..n] == a + b[..k]
  {
  }

  /** Padding that fits behind the message in the last block. */
  lemma DropLastZero(front: seq<bool>, n: nat, m: nat, last: nat)
    requires m == n + 1 && last == |front| + m
    ensures (front + ([true] + Zeros(m)))[..last] + [true] == front + ([true] + Zeros(n) + [true])
  {
  }

  lemma LastBitAfterMark(marked: seq<bv8>, front: seq<bool>, n: nat, m: nat)
    requires marked != [] && m == n + 1
    requires ToBits(marked) == front + ([true] + Zeros(m))
    ensures ToBits(SetLastBit(marked)) == front + ([true] + Zeros(n) + [true])
  {
    var last := |front| + m;
    DropLastZero(front, n, m, last);
    SetLastBitBits(marked, last);
  }

  lemma OneBlockBits(queue: seq<bv8>, at: nat, k: nat, n: nat, m: nat)
    requires at < |queue| && k < 8 && (k != 0 ==> HighClear(queue[at], k))
    requires m == n + 1 && m == 8 * |queue| - 8 * at - k - 1
    ensures ToBits(SetLastBit(MarkEnd(queue, at, k))) == ToBits(queue)[..8 * at + k] + ([true] + Zeros(n) + [true])
  {
    MarkEndBits(queue, at, k, m);
    LastBitAfterMark(MarkEnd(queue, at, k), ToBits(queue)[..8 * at + k], n, m);
  }

  lemma OneThenZeros(front: seq<bool>, n: nat, m: nat)
    requires m == n + 1
    ensures (front + [true]) + (Zeros(m)[..n] + [true]) == front + ([true] + Zeros(n) + [true])
  {
  }

  /** When only one bit still fits, the other end of the padding fills a block of its own. */
  lemma TwoBlockBits(queue: seq<bv8>, last: nat)
    requires queue != [] && HighClear(queue[|queue| - 1], 7) && last == 8 * |queue| - 1
    ensures ToBits(SetLastBit(queue)) + ToBits(SetLastBit(ZeroBytes(|queue|)))
         == ToBits(queue)[..last] + ([true] + Zeros(last) + [true])
  {
    ToBitsAt(queue, |queue| - 1, 7);
    SetLastBitBits(queue, last);
    ZeroBytesBits(|queue|);
    SetLastBitBits(ZeroBytes(|queue|), last);
    OneThenZeros(ToBits(queue)[..last], last, 8 * |queue|);
  }

  /** A message that ends in the queue, and the block that ends it. */
  lemma LastBlock<S>(keccak: Keccak<S>, rate: nat, message: seq<bool>, blocks: seq<seq<bv8>>, s: S, rest: seq<bool>, last: seq<bv8>)
    requires rate > 2 && RateSized(blocks, rate) && 8 * |last| == rate
    requires s == AbsorbBlocks(keccak, keccak.initial, blocks)
    requires message == Joined(blocks) + rest
    requires ToBits(last) == rest + Pad(rate, |message|)
    ensures Absorbed(keccak, rate, message, blocks + [last], keccak.absorb(s, last))
  {
    AbsorbSnoc(keccak, keccak.initial, blocks, last);
    JoinedSnoc(blocks, last);
    TailGrows(message, Joined(blocks), rest, Pad(rate, |message|));
  }

  lemma LastTwoBlocks<S>(keccak: Keccak<S>, rate: nat, message: seq<bool>, blocks: seq<seq<bv8>>, s: S, rest: seq<bool>,
                         first: seq<bv8>, last: seq<bv8>)
    requires rate > 2 && RateSized(blocks, rate) && 8 * |first| == rate && 8 * |last| == rate
    requires s == AbsorbBlocks(keccak, keccak.initial, blocks)
    requires message == Joined(blocks) + rest
    requires ToBits(first) + ToBits(last) == rest + Pad(rate, |message|)
    ensures Absorbed(keccak, rate, message, blocks + [first] + [last], keccak.absorb(keccak.absorb(s, first), last))
  {
    AbsorbSnoc(keccak, keccak.initial, blocks, first);
    AbsorbSnoc(keccak, keccak.initial, blocks + [first], last);
    JoinedSnoc(blocks, first);
    JoinedSnoc(blocks + [first], last);
    TailGrows(message, Joined(blocks), rest, Pad(rate, |message|));
    TailGrows(Joined(blocks) + ToBits(first), Joined(blocks), ToBits(first), ToBits(last));
  }

  /** The padding of a message whose last `q` bits are still in the queue. */
  lemma PadBehind(rate: nat, message: seq<bool>, blocks: seq<seq<bv8>>, rest: seq<bool>, q: nat)
    requires rate > 2 && RateSized(blocks, rate) && message == Joined(blocks) + rest && |rest| == q < rate
    ensures q + 1 == rate ==> Pad(rate, |message|) == [true] + Zeros(rate - 1) + [true]
    ensures q + 1 < rate ==> Pad(rate, |message|) == [true] + Zeros(rate - 2 - q) + [true]
  {
    JoinedLength(blocks, rate);
    PadInBlock(rate, |blocks|, q);
  }

  lemma PaddedOne<S>(keccak: Keccak<S>, rate: nat, message: seq<bool>, blocks: seq<seq<bv8>>, s: S,
                     queue: seq<bv8>, at: nat, k: nat)
    requires rate > 2 && Holding(keccak, rate, message, blocks, s, queue, at, k) && 8 * at + k + 1 < rate
    ensures var last := SetLastBit(MarkEnd(queue, at, k));
      Absorbed(keccak, rate, message, blocks + [last], keccak.absorb(s, last))
  {
    var q := 8 * at + k;
    var rest := ToBits(queue)[..q];
    OneBlockBits(queue, at, k, rate - 2 - q, rate - 1 - q);
    PadBehind(rate, message, blocks, rest, q);
    LastBlock(keccak, rate, message, blocks, s, rest, SetLastBit(MarkEnd(queue, at, k)));
  }

  lemma PaddedTwo<S>(keccak: Keccak<S>, rate: nat, message: seq<bool>, blocks: seq<seq<bv8>>, s: S,
                     queue: seq<bv8>, at: nat, k: nat)
    requires rate > 2 && Holding(keccak, rate, message, blocks, s, queue, at, k) && 8 * at + k + 1 == rate
    ensures at == |queue| - 1 && k == 7
    ensures var first, last := SetLastBit(queue), SetLastBit(ZeroBytes(|queue|));
      Absorbed(keccak, rate, message, blocks + [first] + [last], keccak.absorb(keccak.absorb(s, first), last))
  {
    assert at == |queue| - 1 && k == 7;
    var rest := ToBits(queue)[..rate - 1];
    TwoBlockBits(queue, rate - 1);
    PadBehind(rate, message, blocks, rest, rate - 1);
    LastTwoBlocks(keccak, rate, message, blocks, s, rest, SetLastBit(queue), SetLastBit(ZeroBytes(|queue|)));
  }

  // ----- one digest for one message ------------------------------------------------------

  lemma {:induction false} ToBitsInjective(a: seq<bv8>, b: seq<bv8>)
    requires ToBits(a) == ToBits(b)
    ensures a == b
  {
    if a != [] && b != [] {
      var x, y := a[|a| - 1], b[|b| - 1];
      CutEqual(ToBits(a[..|a| - 1]), ByteBits(x), ToBits(b[..|b| - 1]), ByteBits(y));
      ByteBitsInjective(x, y);
      ToBitsInjective(a[..|a| - 1], b[..|b| - 1]);
    }
  }

  lemma CutEqual(a: seq<bool>, x: seq<bool>, b: seq<bool>, y: seq<bool>)
    requires a + x == b + y && |x| == |y|
    ensures a == b && x == y
  {
    assert a == (a + x)[..|a|] && b == (b + y)[..|b|];
    assert x == (a + x)[|a|..] && y == (b + y)[|b|..];
  }

  lemma ByteBitsInjective(x: bv8, y: bv8)
    requires ByteBits(x) == ByteBits(y)
    ensures x == y
  {
    forall t: nat | t < 8
      ensures Bit(x, t) == Bit(y, t)
    {
      assert ByteBits(x)[t] == ByteBits(y)[t];
    }
    BitsDecide(x, y);
  }

  lemma BitsDecide(x: bv8, y: bv8)
    requires Bit(x, 0) == Bit(y, 0) && Bit(x, 1) == Bit(y, 1) && Bit(x, 2) == Bit(y, 2) && Bit(x, 3) == Bit(y, 3)
    requires Bit(x, 4) == Bit(y, 4) && Bit(x, 5) == Bit(y, 5) && Bit(x, 6) == Bit(y, 6) && Bit(x, 7) == Bit(y, 7)
    ensures x == y
  {
    OneBitValues();
  }

  lemma {:induction false} OneCut(a: seq<seq<bv8>>, b: seq<seq<bv8>>, rate: nat)
    requires rate > 0 && RateSized(a, rate) && RateSized(b, rate)
    requires Joined(a) == Joined(b)
    ensures a == b
  {
    if a != [] && b != [] {
      CutEqual(Joined(a[..|a| - 1]), ToBits(a[|a| - 1]), Joined(b[..|b| - 1]), ToBits(b[|b| - 1]));
      ToBitsInjective(a[|a| - 1], b[|b| - 1]);
      OneCut(a[..|a| - 1], b[..|b| - 1], rate);
    }
  }

  /** The state after absorbing depends on the message alone, not on how it arrived. */
  lemma AbsorbedOnce<S>(keccak: Keccak<S>, rate: nat, message: seq<bool>,
                        blocks: seq<seq<bv8>>, s: S, others: seq<seq<bv8>>, t: S)
    requires rate > 2
    requires Absorbed(keccak, rate, message, blocks, s) && Absorbed(keccak, rate, message, others, t)
    ensures s == t
  {
    OneCut(blocks, others, rate);
  }
}
