/** thirdparty/sha3/KeccakSponge.c and KeccakNISTInterface.c: the sponge state and the calls
    that advance it, and `sha3Finish` of src/utils/CryptographicHash.cpp. */
module KeccakSponge {
  import opened Arithmetic
  import opened Bits
  import opened Sponge

  datatype HashReturn = SUCCESS | FAIL | BAD_HASHLEN

  /** The bits a caller names with `databitlen`. */
  function Taken(data: seq<bv8>, databitlen: nat): seq<bool>
    requires databitlen <= 8 * |data|
  {
    ToBits(data)[..databitlen]
  }

  /** `output` is `n` bytes of the sponge's output for `message`. */
  ghost predicate IsOutput<S(!new)>(keccak: Keccak<S>, rate: nat, message: seq<bool>, output: seq<bv8>)
    requires Sane(keccak) && rate > 8
  {
    exists blocks, s ::
      Absorbed(keccak, rate, message, blocks, s) && output == Output(keccak, s, rate / 8, |output|)
  }

  /** A message has one output of each length. */
  lemma OneOutput<S(!new)>(keccak: Keccak<S>, rate: nat, message: seq<bool>, output: seq<bv8>, other: seq<bv8>)
    requires Sane(keccak) && rate > 8 && |output| == |other|
    requires IsOutput(keccak, rate, message, output) && IsOutput(keccak, rate, message, other)
    ensures output == other
  {
    var blocks, s :| Absorbed(keccak, rate, message, blocks, s) && output == Output(keccak, s, rate / 8, |output|);
    var others, t :| Absorbed(keccak, rate, message, others, t) && other == Output(keccak, t, rate / 8, |other|);
    AbsorbedOnce(keccak, rate, message, blocks, s, others, t);
  }

  predicate GoodRate(rate: nat) {
    0 < rate < 1600 && rate % 64 == 0
  }

  lemma WholeBytes(bits: nat)
    requires bits % 8 == 0
    ensures bits == 8 * (bits / 8)
  {
  }

  lemma BitPlace(bits: nat, at: nat, k: nat)
    requires bits == 8 * at + k && k < 8
    ensures bits / 8 == at && bits % 8 == k
  {
  }

  /** A block taken straight from the caller's data while the queue is empty. */
  lemma BlockTaken<S>(keccak: Keccak<S>, rate: nat, message: seq<bool>, blocks: seq<seq<bv8>>, s: S,
                      queue: seq<bv8>, block: seq<bv8>)
    requires Holding(keccak, rate, message, blocks, s, queue, 0, 0) && 8 * |block| == rate
    ensures Holding(keccak, rate, message + ToBits(block), blocks + [block], keccak.absorb(s, block), queue, 0, 0)
  {
    AbsorbSnoc(keccak, keccak.initial, blocks, block);
    JoinedSnoc(blocks, block);
    assert message == Joined(blocks);
  }

  lemma TakenGrows(data: seq<bv8>, from: nat, to: nat)
    requires from <= to <= |data|
    ensures Taken(data, 8 * from) + ToBits(data[from..to]) == Taken(data, 8 * to)
  {
    ToBitsSlice(data, from, to);
    SliceAfter(ToBits(data), 8 * from, 8 * to);
  }

  lemma TakenNext(before: seq<bool>, data: seq<bv8>, from: nat, to: nat, message: seq<bool>)
    requires from <= to <= |data| && message == before + Taken(data, 8 * from)
    ensures message + ToBits(data[from..to]) == before + Taken(data, 8 * to)
  {
    TakenGrows(data, from, to);
    TailGrows(message, before, Taken(data, 8 * from), ToBits(data[from..to]));
  }

  lemma SliceAfter(bits: seq<bool>, i: nat, j: nat)
    requires i <= j <= |bits|
    ensures bits[..i] + bits[i..j] == bits[..j]
  {
  }

  lemma TakenPartial(data: seq<bv8>, at: nat, k: nat)
    requires at < |data| && k < 8
    ensures Taken(data, 8 * at) + ByteBits(data[at])[..k] == Taken(data, 8 * at + k)
  {
    FrontBits(data, at, k);
    ToBitsSlice(data, 0, at);
    assert data[0..at] == data[..at];
  }

  lemma BlockFits(j: nat, n: nat, size: nat)
    requires j < n
    ensures j * size + size == (j + 1) * size <= n * size
  {
    MulMonotone(j + 1, n, size);
  }

  lemma BlocksLeft(left: nat, rate: nat, size: nat, n: nat)
    requires 0 < rate <= left && rate == 8 * size && n == left / rate
    ensures 0 < n * rate <= left && n * rate == 8 * (n * size)
  {
  }

  const TWO_32 := 0x1_0000_0000
  const TWO_64 := 0x1_0000_0000_0000_0000

  /** How many bits `Absorb` puts behind the `queued` ones: it computes with 32 bits. */
  function PartBits(left: nat, queued: nat, rate: nat): (bits: int)
  {
    var partialBlock := left % TWO_32;
    if (partialBlock + queued) % TWO_32 > rate then rate - queued else partialBlock
  }

  /** The 32 bits suffice: there is no overflow, or it still leaves more than a block, or what is
      left of the length fills the block all the same. */
  predicate Harmless(left: nat, queued: nat, rate: nat) {
    left + queued < TWO_32 || (left + queued) % TWO_32 > rate || left % TWO_32 + queued == rate
  }

  lemma WrappedSum(left: nat, queued: nat)
    ensures (left % TWO_32 + queued) % TWO_32 == (left + queued) % TWO_32
    ensures left < TWO_32 ==> left % TWO_32 == left
    ensures left % TWO_32 <= left && (left + queued) % TWO_32 <= left + queued
  {
  }

  /** Only then is the part what fits. */
  lemma PartRightIff(left: nat, queued: nat, rate: nat)
    requires queued < rate < TWO_32
    ensures PartBits(left, queued, rate) == (if left + queued > rate then rate - queued else left) <==> Harmless(left, queued, rate)
  {
    WrappedSum(left, queued);
  }

  /** Otherwise it may even be nothing, so that `Absorb` makes no progress. */
  lemma NoPart()
    ensures PartBits(TWO_32, 8, 1088) == 0 && !Harmless(TWO_32, 8, 1088)
  {
  }

  /** How much of the data fits behind the queue, as whole bytes and a partial byte. */
  method PartSize(left: nat, bitsInQueue: nat, rate: nat) returns (partialBlock: nat, partialByte: nat)
    requires 0 < left && bitsInQueue < rate < TWO_32 && bitsInQueue % 8 == 0 && rate % 8 == 0
    requires Harmless(left, bitsInQueue, rate)
    ensures partialBlock % 8 == 0 && partialByte < 8 && 0 < partialBlock + partialByte
    ensures partialBlock + partialByte == if left + bitsInQueue > rate then rate - bitsInQueue else left
    ensures partialByte > 0 ==> partialBlock + partialByte == left && bitsInQueue + partialBlock < rate
  {
    PartRightIff(left, bitsInQueue, rate);
    partialBlock := left % TWO_32;
    if (partialBlock + bitsInQueue) % TWO_32 > rate {
      partialBlock := rate - bitsInQueue;
    }
    assert partialBlock == PartBits(left, bitsInQueue, rate);
    partialByte := partialBlock % 8;
    partialBlock := partialBlock - partialByte;
  }

  lemma LastBits(before: seq<bool>, data: seq<bv8>, at: nat, k: nat, message: seq<bool>)
    requires at < |data| && k < 8 && message == before + Taken(data, 8 * at)
    ensures message + ByteBits(data[at])[..k] == before + Taken(data, 8 * at + k)
  {
    TakenPartial(data, at, k);
    TailGrows(message, before, Taken(data, 8 * at), ByteBits(data[at])[..k]);
  }

  method ByteRange(rate: nat, available: nat, size: nat) returns (from: nat, to: nat)
    requires size <= available <= rate && rate % 8 == 0 && available % 8 == 0 && size % 8 == 0
    ensures from == (rate - available) / 8 && to == (rate - (available - size)) / 8
    ensures 8 * (to - from) == size && 8 * to <= rate && (available - size) % 8 == 0
  {
    from := (rate - available) / 8;
    to := from + size / 8;
  }

  lemma Reassociate<T>(a: seq<T>, b: seq<T>, c: seq<T>)
    ensures (a + b) + c == a + (b + c)
  {
  }

  lemma ReadOn(output: seq<bv8>, stream: seq<bv8>, block: seq<bv8>, from: nat, to: nat)
    requires from <= to <= |block| && output == stream + block[..from]
    ensures output + block[from..to] == stream + block[..to]
  {
    assert block[..from] + block[from..to] == block[..to];
  }

  lemma BytesLeft(length: nat, n: nat)
    requires length % 8 == 0 && 8 * n < length
    ensures (length - 8 * n) % 8 == 0
  {
  }

  /** The bits of `Update`: whole bytes, then the high bits of a last partial byte. */
  function HighFirst(data: seq<bv8>, databitlen: nat): seq<bool>
    requires databitlen <= 8 * |data|
  {
    var at, k := databitlen / 8, databitlen % 8;
    Taken(data, 8 * at) + if k == 0 then [] else ByteBits(data[at])[8 - k..]
  }

  lemma HighFirstIs(data: seq<bv8>, databitlen: nat)
    requires databitlen <= 8 * |data|
    ensures var k := databitlen % 8;
      if k == 0 then HighFirst(data, databitlen) == Taken(data, databitlen)
      else databitlen / 8 < |data| && (databitlen - k) % 8 == 0
           && HighFirst(data, databitlen) == Taken(data, databitlen - k) + ByteBits(data[databitlen / 8])[8 - k..]
  {
    var at, k := databitlen / 8, databitlen % 8;
    assert 8 * at == databitlen - k;
    assert k == 0 ==> Taken(data, databitlen) + [] == Taken(data, databitlen);
  }

  lemma AlignedBits(byte: bv8, k: nat)
    requires 0 < k < 8
    ensures Taken([byte >> (8 - k)], k) == ByteBits(byte)[8 - k..]
  {
    var low, bits := ByteBits(byte >> (8 - k)), ByteBits(byte);
    ToBitsOne(byte >> (8 - k));
    forall t: nat | t < k
      ensures low[t] == bits[8 - k + t]
    {
      HighBits(byte, k, t);
    }
  }

  lemma MultipleOf(n: nat, size: nat, rate: nat, q: nat, total: nat)
    requires rate == 8 * size && total == n * rate + q
    ensures total % 8 == q % 8
  {
    assert total == 8 * (n * size) + q;
  }

  lemma SumMod8(m: nat, n: nat)
    requires m % 8 == 0
    ensures (m + n) % 8 == n % 8
  {
  }

  datatype Sha3Variant = Sha3 | Keccak

  /** The domain separation bits of section 6.1 of FIPS 202. */
  function Suffix(variant: Sha3Variant): seq<bool> {
    match variant
    case Sha3 => [false, true]
    case Keccak => []
  }

  lemma SuffixBits()
    ensures HighFirst([0x80], 2) == Suffix(Sha3)
  {
    OneBitValues();
  }

  class SpongeState<S(!new)> {
    const keccak: Keccak<S>
    const dataQueue: array<bv8>
    const rate: nat
    const fixedOutputLength: nat
    var state: S
    var bitsInQueue: nat
    var squeezing: bool
    var bitsAvailableForSqueezing: nat
    ghost var message: seq<bool>
    ghost var blocks: seq<seq<bv8>>
    ghost var start: S
    ghost var served: nat
    ghost var output: seq<bv8>

    predicate Ready()
      reads this
    {
      dataQueue.Length == QUEUE_SIZE && GoodRate(rate)
    }

    function Queue(): (queue: seq<bv8>)
      requires Ready()
      reads this, dataQueue
      ensures 8 * |queue| == rate
    {
      WholeBytes(rate);
      dataQueue[..rate / 8]
    }

    /** Input may still come. */
    ghost predicate Absorbing()
      reads this, dataQueue
    {
      && Ready() && !squeezing && bitsInQueue < rate
      && Holding(keccak, rate, message, blocks, state, Queue(), bitsInQueue / 8, bitsInQueue % 8)
    }

    /** The message is closed and `output` has been read. */
    ghost predicate Squeezing()
      reads this, dataQueue
    {
      && Ready() && squeezing && bitsAvailableForSqueezing <= rate && bitsAvailableForSqueezing % 8 == 0
      && Absorbed(keccak, rate, message, blocks, start)
      && state == Permuted(keccak, start, served)
      && Queue() == keccak.extract(state, rate / 8)
      && output == Stream(keccak, start, rate / 8, served) + Queue()[..(rate - bitsAvailableForSqueezing) / 8]
    }

    constructor (keccak: Keccak<S>, rate: nat, fixedOutputLength: nat)
      requires GoodRate(rate)
      ensures fresh(dataQueue) && Absorbing() && message == []
      ensures this.keccak == keccak && this.rate == rate && this.fixedOutputLength == fixedOutputLength
    {
      this.keccak, this.rate, this.fixedOutputLength := keccak, rate, fixedOutputLength;
      dataQueue := new bv8[QUEUE_SIZE](_ => 0);
      state, start := keccak.initial, keccak.initial;
      bitsInQueue, squeezing, bitsAvailableForSqueezing := 0, false, 0;
      message, blocks := [], [];
    }

    static method InitSponge(keccak: Keccak<S>, rate: nat, capacity: nat, fixedOutputLength: nat)
      returns (code: nat, sponge: SpongeState?<S>)
      requires rate < 0x1_0000_0000 && capacity < 0x1_0000_0000
      ensures code == 0 <==> GoodRate(rate) && rate + capacity == 1600
      ensures code == 0 ==> sponge != null && fresh(sponge) && fresh(sponge.dataQueue)
      ensures code == 0 ==> sponge.Absorbing() && sponge.message == [] && sponge.keccak == keccak
      ensures code == 0 ==> sponge.rate == rate && sponge.fixedOutputLength == fixedOutputLength
      ensures code != 0 ==> code == 1 && sponge == null
    {
      if (rate + capacity) % 0x1_0000_0000 != 1600 {
        return 1, null;
      }
      if rate <= 0 || rate >= 1600 || rate % 64 != 0 {
        return 1, null;
      }
      sponge := new SpongeState(keccak, rate, fixedOutputLength);
      code := 0;
    }

    method AbsorbQueue()
      requires Ready()
      modifies this`state, this`bitsInQueue, this`blocks
      ensures state == keccak.absorb(old(state), Queue()) && blocks == old(blocks) + [Queue()]
      ensures bitsInQueue == 0
    {
      WholeBytes(rate);
      blocks := blocks + [dataQueue[..rate / 8]];
      state := keccak.absorb(state, dataQueue[..rate / 8]);
      bitsInQueue := 0;
    }

    /** The blocks that can be absorbed without being copied into the queue. */
    method AbsorbWholeBlocks(data: seq<bv8>, at: nat, wholeBlocks: nat, size: nat, ghost end: nat,
                             ghost before: seq<bool>)
      requires Absorbing() && bitsInQueue == 0 && 8 * size == rate
      requires at <= end == at + wholeBlocks * size <= |data|
      requires message == before + Taken(data, 8 * at)
      modifies this
      ensures Absorbing() && bitsInQueue == 0
      ensures message == before + Taken(data, 8 * end)
    {
      var j, current := 0, at;
      while j < wholeBlocks
        invariant j <= wholeBlocks
        invariant at <= current == at + j * size <= |data|
        invariant Absorbing() && bitsInQueue == 0
        invariant message == before + Taken(data, 8 * current)
      {
        BlockFits(j, wholeBlocks, size);
        var next := current + size;
        TakenNext(before, data, current, next, message);
        AbsorbBlock(data[current..next]);
        j, current := j + 1, next;
      }
    }

    method AbsorbBlock(block: seq<bv8>)
      requires Absorbing() && bitsInQueue == 0 && 8 * |block| == rate
      modifies this
      ensures Absorbing() && bitsInQueue == 0
      ensures message == old(message) + ToBits(block)
    {
      BlockTaken(keccak, rate, message, blocks, state, Queue(), block);
      blocks, message := blocks + [block], message + ToBits(block);
      state := keccak.absorb(state, block);
    }

    method Copy(at: nat, bytes: seq<bv8>)
      requires Ready() && 8 * (at + |bytes|) <= rate
      modifies dataQueue
      ensures Queue() == Copied(old(Queue()), at, bytes)
    {
      forall i | 0 <= i < |bytes| {
        dataQueue[at + i] := bytes[i];
      }
    }

    /** Copies whole bytes behind the queue, which becomes a block when it is full. */
    method QueueBytes(bytes: seq<bv8>)
      requires Absorbing() && bitsInQueue % 8 == 0 && bitsInQueue + 8 * |bytes| <= rate
      modifies this, dataQueue
      ensures Absorbing()
      ensures var bits := old(bitsInQueue) + 8 * |bytes|; bitsInQueue == if bits == rate then 0 else bits
      ensures message == old(message) + ToBits(bytes)
    {
      hide ToBits, Joined, AbsorbBlocks;
      WholeBytes(rate);
      WholeBytes(bitsInQueue);
      var at := bitsInQueue / 8;
      ghost var queue := Queue();
      BytesCopied(keccak, rate, message, blocks, state, queue, at, bytes);
      Copy(at, bytes);
      message, bitsInQueue := message + ToBits(bytes), bitsInQueue + 8 * |bytes|;
      BitPlace(bitsInQueue, at + |bytes|, 0);
      if bitsInQueue == rate {
        QueueAbsorbed(keccak, rate, message, blocks, state, Queue());
        AbsorbQueue();
      }
    }

    method QueuePartialByte(byte: bv8, k: nat)
      requires Absorbing() && bitsInQueue % 8 == 0 && 0 < k < 8
      modifies this, dataQueue
      ensures Absorbing() && bitsInQueue == old(bitsInQueue) + k
      ensures message == old(message) + ByteBits(byte)[..k]
    {
      WholeBytes(rate);
      WholeBytes(bitsInQueue);
      var at := bitsInQueue / 8;
      ghost var queue := Queue();
      PartialByteStored(keccak, rate, message, blocks, state, queue, at, byte, k);
      var mask := OneBit(k) - 1;
      Copy(at, [byte & mask]);
      message, bitsInQueue := message + ByteBits(byte)[..k], bitsInQueue + k;
      BitPlace(bitsInQueue, at, k);
    }

    /** The fast path: `i` advances by as many blocks as the data still holds. */
    method TakeBlocks(data: seq<bv8>, databitlen: nat, i: nat, ghost before: seq<bool>) returns (next: nat)
      requires Absorbing() && bitsInQueue == 0 && i % 8 == 0 && i + rate <= databitlen <= 8 * |data|
      requires message == before + Taken(data, i)
      modifies this
      ensures Absorbing() && bitsInQueue == 0
      ensures i < next <= databitlen && next % 8 == 0
      ensures message == before + Taken(data, next)
    {
      hide Taken, Holding, Sane, ToBits;
      var wholeBlocks := (databitlen - i) / rate;
      WholeBytes(rate);
      WholeBytes(i);
      ghost var end := i / 8 + wholeBlocks * (rate / 8);
      BlocksLeft(databitlen - i, rate, rate / 8, wholeBlocks);
      AbsorbWholeBlocks(data, i / 8, wholeBlocks, rate / 8, end, before);
      next := i + wholeBlocks * rate;
      BitPlace(next, end, 0);
    }

    method QueueSlice(data: seq<bv8>, i: nat, partialBlock: nat, ghost before: seq<bool>)
      requires Absorbing() && bitsInQueue % 8 == 0 && i % 8 == 0 && partialBlock % 8 == 0
      requires i + partialBlock <= 8 * |data| && bitsInQueue + partialBlock <= rate
      requires message == before + Taken(data, i)
      modifies this, dataQueue
      ensures Absorbing()
      ensures var bits := old(bitsInQueue) + partialBlock; bitsInQueue == if bits == rate then 0 else bits
      ensures (i + partialBlock) % 8 == 0 && bitsInQueue % 8 == 0
      ensures message == before + Taken(data, i + partialBlock)
    {
      WholeBytes(i);
      WholeBytes(partialBlock);
      var at, end := i / 8, i / 8 + partialBlock / 8;
      TakenNext(before, data, at, end, message);
      QueueBytes(data[at..end]);
    }

    method QueueLast(data: seq<bv8>, i: nat, partialByte: nat, ghost before: seq<bool>)
      requires Absorbing() && bitsInQueue % 8 == 0 && i % 8 == 0 && 0 < partialByte < 8
      requires i + partialByte <= 8 * |data|
      requires message == before + Taken(data, i)
      modifies this, dataQueue
      ensures Absorbing() && message == before + Taken(data, i + partialByte)
    {
      WholeBytes(i);
      LastBits(before, data, i / 8, partialByte, message);
      QueuePartialByte(data[i / 8], partialByte);
    }

    /** The queued path: what fits of the data, and a last partial byte. */
    method TakePart(data: seq<bv8>, databitlen: nat, i: nat, ghost before: seq<bool>) returns (next: nat)
      requires Absorbing() && bitsInQueue % 8 == 0 && i % 8 == 0 && i < databitlen <= 8 * |data|
      requires Harmless(databitlen - i, bitsInQueue, rate)
      requires message == before + Taken(data, i)
      modifies this, dataQueue
      ensures Absorbing()
      ensures i < next <= databitlen && (next < databitlen ==> bitsInQueue == 0 && next % 8 == 0)
      ensures message == before + Taken(data, next)
    {
      hide Holding;
      var partialBlock, partialByte := PartSize(databitlen - i, bitsInQueue, rate);
      QueueSlice(data, i, partialBlock, before);
      next := i + partialBlock;
      if partialByte > 0 {
        QueueLast(data, next, partialByte, before);
        next := next + partialByte;
      }
    }

    /** The data does not meet a queue behind which its length is cut wrongly. */
    predicate Takes(databitlen: nat)
      reads this
    {
      bitsInQueue == 0 || Harmless(databitlen, bitsInQueue, rate)
    }

    method Absorb(data: seq<bv8>, databitlen: nat) returns (code: nat)
      requires Absorbing() || Squeezing()
      requires databitlen <= 8 * |data| && databitlen < TWO_64 && Takes(databitlen)
      modifies this, dataQueue
      ensures code == 0 <==> old(bitsInQueue) % 8 == 0 && !old(squeezing)
      ensures code == 0 ==> Absorbing() && message == old(message) + Taken(data, databitlen)
      ensures code == 0 ==> bitsInQueue % 8 == databitlen % 8
      ensures code != 0 ==> code == 1 && unchanged(this) && unchanged(dataQueue)
    {
      if bitsInQueue % 8 != 0 {
        return 1;
      }
      if squeezing {
        return 1;
      }
      ghost var before := message;
      Aligned();
      var i := 0;
      while i < databitlen
        invariant i <= databitlen && Absorbing()
        invariant i < databitlen ==> i % 8 == 0 && (bitsInQueue == 0 || (i == 0 && bitsInQueue == old(bitsInQueue)))
        invariant message == before + Taken(data, i)
      {
        if bitsInQueue == 0 && databitlen >= rate && i <= databitlen - rate {
          i := TakeBlocks(data, databitlen, i, before);
        } else {
          assert Harmless(databitlen - i, bitsInQueue, rate);
          i := TakePart(data, databitlen, i, before);
        }
      }
      Aligned();
      SumMod8(|before|, databitlen);
      code := 0;
    }

    /** Sets bit `k` of byte `at` and clears what lies behind. */
    method MarkEndOfMessage(at: nat, k: nat)
      requires Ready() && 8 * (at + 1) <= rate && bitsInQueue == 8 * at + k && k < 8
      modifies dataQueue
      ensures Queue() == MarkEnd(old(Queue()), at, k)
    {
      forall i | (bitsInQueue + 7) / 8 <= i < rate / 8 {
        dataQueue[i] := 0;
      }
      dataQueue[bitsInQueue / 8] := dataQueue[bitsInQueue / 8] | OneBit(bitsInQueue % 8);
    }

    method MarkEndOfBlock()
      requires Ready()
      modifies dataQueue
      ensures Queue() == SetLastBit(old(Queue()))
    {
      BitPlace(rate - 1, rate / 8 - 1, 7);
      dataQueue[(rate - 1) / 8] := dataQueue[(rate - 1) / 8] | OneBit((rate - 1) % 8);
    }

    method ClearQueue()
      requires Ready()
      modifies dataQueue
      ensures Queue() == ZeroBytes(|old(Queue())|)
    {
      forall i | 0 <= i < rate / 8 {
        dataQueue[i] := 0;
      }
    }

    method ExtractBlock()
      requires Ready() && Sane(keccak)
      modifies this`bitsAvailableForSqueezing, dataQueue
      ensures Queue() == keccak.extract(state, rate / 8)
      ensures bitsAvailableForSqueezing == rate
    {
      var block := keccak.extract(state, rate / 8);
      forall i | 0 <= i < rate / 8 {
        dataQueue[i] := block[i];
      }
      bitsAvailableForSqueezing := rate;
    }

    method Pad()
      requires Absorbing()
      modifies this`state, this`bitsInQueue, this`blocks, dataQueue
      ensures Absorbed(keccak, rate, message, blocks, state) && bitsInQueue == 0
    {
      var at, k := bitsInQueue / 8, bitsInQueue % 8;
      if bitsInQueue + 1 == rate {
        PaddedTwo(keccak, rate, message, blocks, state, Queue(), at, k);
        MarkEndOfBlock();
        AbsorbQueue();
        ClearQueue();
      } else {
        PaddedOne(keccak, rate, message, blocks, state, Queue(), at, k);
        MarkEndOfMessage(at, k);
      }
      MarkEndOfBlock();
      AbsorbQueue();
    }

    method PadAndSwitchToSqueezingPhase()
      requires Absorbing() && Sane(keccak)
      modifies this, dataQueue
      ensures Squeezing() && message == old(message) && output == []
    {
      Pad();
      ExtractBlock();
      start, served, output := state, 0, [];
      squeezing := true;
    }

    /** One more block of output once the last has been read. */
    method NextBlock()
      requires Squeezing() && Sane(keccak) && bitsAvailableForSqueezing == 0
      modifies this`state, this`bitsAvailableForSqueezing, this`served, dataQueue
      ensures Squeezing() && bitsAvailableForSqueezing == rate
    {
      WholeBytes(rate);
      state, served := keccak.permute(state), served + 1;
      ExtractBlock();
    }

    /** Reads what is left of the current block, up to `left` bits. */
    method ReadBlock(left: nat) returns (bytes: seq<bv8>)
      requires Squeezing() && Sane(keccak) && bitsAvailableForSqueezing > 0 && 0 < left && left % 8 == 0
      modifies this`bitsAvailableForSqueezing, this`output
      ensures Squeezing() && output == old(output) + bytes
      ensures 0 < 8 * |bytes| <= left
    {
      var partialBlock := bitsAvailableForSqueezing;
      if partialBlock > left {
        partialBlock := left;
      }
      bytes := TakeOutput(partialBlock);
    }

    method TakeOutput(partialBlock: nat) returns (bytes: seq<bv8>)
      requires Squeezing() && partialBlock <= bitsAvailableForSqueezing && partialBlock % 8 == 0
      modifies this`bitsAvailableForSqueezing, this`output
      ensures Squeezing() && output == old(output) + bytes && 8 * |bytes| == partialBlock
    {
      var from, to := ByteRange(rate, bitsAvailableForSqueezing, partialBlock);
      bytes := Queue()[from..to];
      ReadOn(output, Stream(keccak, start, rate / 8, served), Queue(), from, to);
      bitsAvailableForSqueezing, output := bitsAvailableForSqueezing - partialBlock, output + bytes;
    }

    method SqueezeSome(left: nat) returns (bytes: seq<bv8>)
      requires Squeezing() && Sane(keccak) && 0 < left && left % 8 == 0
      modifies this`state, this`bitsAvailableForSqueezing, this`served, this`output, dataQueue
      ensures Squeezing() && output == old(output) + bytes
      ensures 0 < 8 * |bytes| <= left
    {
      if bitsAvailableForSqueezing == 0 {
        NextBlock();
      }
      bytes := ReadBlock(left);
    }

    method Squeeze(outputLength: nat) returns (code: nat, bytes: seq<bv8>)
      requires (Absorbing() || Squeezing()) && Sane(keccak)
      modifies this, dataQueue
      ensures Squeezing() && message == old(message)
      ensures code == 0 <==> outputLength % 8 == 0
      ensures code == 0 ==> 8 * |bytes| == outputLength
      ensures code != 0 ==> code == 1 && bytes == []
      ensures output == (if old(squeezing) then old(output) else []) + bytes
    {
      hide Holding;
      if !squeezing {
        PadAndSwitchToSqueezingPhase();
      }
      ghost var before := output;
      bytes := [];
      if outputLength % 8 != 0 {
        return 1, [];
      }
      var i := 0;
      while i < outputLength
        invariant i == 8 * |bytes| <= outputLength
        invariant Squeezing() && message == old(message)
        invariant output == before + bytes
      {
        BytesLeft(outputLength, |bytes|);
        var more := SqueezeSome(outputLength - i);
        Reassociate(before, bytes, more);
        i, bytes := i + 8 * |more|, bytes + more;
      }
      code := 0;
    }

    /** Whatever calls it took to read it, the output is the sponge's output for the message. */
    lemma OutputRead()
      requires Squeezing() && Sane(keccak)
      ensures IsOutput(keccak, rate, message, output)
    {
      OutputReached(keccak, start, rate / 8, served, (rate - bitsAvailableForSqueezing) / 8, output);
    }

    // ----- KeccakNISTInterface.c -----------------------------------------------------------

    static method Init(keccak: Keccak<S>, hashbitlen: nat) returns (code: HashReturn, sponge: SpongeState?<S>)
      ensures code == SUCCESS <==> hashbitlen in {0, 224, 256, 384, 512}
      ensures code == SUCCESS ==> sponge != null && fresh(sponge) && fresh(sponge.dataQueue)
      ensures code == SUCCESS ==> sponge.Absorbing() && sponge.message == [] && sponge.keccak == keccak
      ensures code == SUCCESS ==> sponge.fixedOutputLength == hashbitlen
      ensures code == SUCCESS ==> sponge.rate == if hashbitlen == 0 then 1024 else 1600 - 2 * hashbitlen
      ensures code != SUCCESS ==> code == BAD_HASHLEN && sponge == null
    {
      var ignored;
      match hashbitlen {
        case 0 => ignored, sponge := InitSponge(keccak, 1024, 576, hashbitlen);
        case 224 => ignored, sponge := InitSponge(keccak, 1152, 448, hashbitlen);
        case 256 => ignored, sponge := InitSponge(keccak, 1088, 512, hashbitlen);
        case 384 => ignored, sponge := InitSponge(keccak, 832, 768, hashbitlen);
        case 512 => ignored, sponge := InitSponge(keccak, 576, 1024, hashbitlen);
        case _ => return BAD_HASHLEN, null;
      }
      code := SUCCESS;
    }

    method Update(data: seq<bv8>, databitlen: nat) returns (code: HashReturn)
      requires Absorbing() || Squeezing()
      requires databitlen <= 8 * |data| && databitlen < TWO_64 && Takes(databitlen - databitlen % 8)
      modifies this, dataQueue
      ensures code == SUCCESS <==> old(bitsInQueue) % 8 == 0 && !old(squeezing)
      ensures code == SUCCESS ==> Absorbing()
      ensures code == SUCCESS ==> message == old(message) + HighFirst(data, databitlen)
      ensures code != SUCCESS ==> code == FAIL && unchanged(this) && unchanged(dataQueue)
    {
      hide Harmless, Taken, HighFirst, ByteBits, GoodRate, Holding, Sane;
      HighFirstIs(data, databitlen);
      var k := databitlen % 8;
      if k == 0 {
        var ret := Absorb(data, databitlen);
        code := if ret == 0 then SUCCESS else FAIL;
      } else {
        ghost var before := message;
        var ret := Absorb(data, databitlen - k);
        if ret == 0 {
          TailGrows(message, before, Taken(data, databitlen - k), ByteBits(data[databitlen / 8])[8 - k..]);
          UpdateLast(data[databitlen / 8], k);
          code := SUCCESS;
        } else {
          code := FAIL;
        }
      }
    }

    /** The last partial byte, aligned to its low bits. */
    method UpdateLast(byte: bv8, k: nat)
      requires Absorbing() && bitsInQueue % 8 == 0 && 0 < k < 8
      modifies this, dataQueue
      ensures Absorbing() && message == old(message) + ByteBits(byte)[8 - k..]
    {
      var lastByte := byte >> (8 - k);
      AlignedBits(byte, k);
      var ret := Absorb([lastByte], k);
    }

    /** The bits in the queue are those of the message that do not fill a block. */
    lemma Aligned()
      requires Absorbing()
      ensures bitsInQueue % 8 == |message| % 8
    {
      JoinedLength(blocks, rate);
      WholeBytes(rate);
      MultipleOf(|blocks|, rate / 8, rate, bitsInQueue, |message|);
    }

    method Final() returns (code: HashReturn, hashval: seq<bv8>)
      requires (Absorbing() || Squeezing()) && Sane(keccak)
      modifies this, dataQueue
      ensures Squeezing() && message == old(message)
      ensures code == SUCCESS <==> fixedOutputLength % 8 == 0
      ensures code == SUCCESS ==> 8 * |hashval| == fixedOutputLength
      ensures output == (if old(squeezing) then old(output) else []) + hashval
    {
      var ret;
      ret, hashval := Squeeze(fixedOutputLength);
      code := if ret == 0 then SUCCESS else FAIL;
    }

    // ----- sha3Finish of CryptographicHash.cpp ---------------------------------------------

    constructor CopyOf(other: SpongeState<S>)
      requires other.Absorbing()
      ensures fresh(dataQueue) && Absorbing() && message == other.message
      ensures keccak == other.keccak && rate == other.rate && fixedOutputLength == other.fixedOutputLength
    {
      keccak, rate, fixedOutputLength := other.keccak, other.rate, other.fixedOutputLength;
      dataQueue := new bv8[QUEUE_SIZE](i requires 0 <= i < other.dataQueue.Length reads other.dataQueue => other.dataQueue[i]);
      state, bitsInQueue, squeezing := other.state, other.bitsInQueue, other.squeezing;
      bitsAvailableForSqueezing := other.bitsAvailableForSqueezing;
      message, blocks, start, served, output := other.message, other.blocks, other.start, other.served, other.output;
      new;
      assert Queue() == other.Queue();
    }

    /** The digest of the bytes so far; the context itself can go on absorbing. */
    method Sha3Finish(variant: Sha3Variant) returns (result: seq<bv8>)
      requires Absorbing() && Sane(keccak) && |message| % 8 == 0 && fixedOutputLength % 8 == 0
      ensures 8 * |result| == fixedOutputLength
      ensures IsOutput(keccak, rate, message + Suffix(variant), result)
    {
      var copy := new SpongeState<S>.CopyOf(this);
      if variant == Sha3 {
        copy.Aligned();
        SuffixBits();
        var ignored := copy.Update([0x80], 2);
      }
      assert copy.message == message + Suffix(variant);
      var code;
      code, result := copy.Final();
      copy.OutputRead();
    }
  }
}
