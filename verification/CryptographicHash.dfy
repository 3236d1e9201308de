/** src/utils/CryptographicHash.cpp: one interface over all contexts, which hands out digests of
    what has been added so far without closing the context, and caches the last one. */
module CryptographicHashes {
  import opened Bits
  import BlockHash
  import Sponge
  import opened KeccakSponge
  import opened Sha1
  import opened Md4
  import opened Md5
  import opened Sha2

  datatype Algorithm =
    | Md4 | Md5 | Sha1 | Sha224 | Sha256 | Sha384 | Sha512
    | Keccak_224 | Keccak_256 | Keccak_384 | Keccak_512
    | RealSha3_224 | RealSha3_256 | RealSha3_384 | RealSha3_512

  /** The compression functions and the permutation. */
  datatype Primitives<!S> = Primitives(
    md4: BlockHash.Algorithm<S>, md5: BlockHash.Algorithm<S>, sha1: BlockHash.Algorithm<S>,
    sha224: BlockHash.Algorithm<S>, sha256: BlockHash.Algorithm<S>,
    sha384: BlockHash.Algorithm<S>, sha512: BlockHash.Algorithm<S>,
    keccak: Sponge.Keccak<S>)

  ghost predicate Sound<S(!new)>(p: Primitives<S>) {
    && IsMd4(p.md4) && IsMd5(p.md5) && IsSha1(p.sha1)
    && IsSha2(p.sha224) && IsSha2(p.sha256) && IsSha2(p.sha384) && IsSha2(p.sha512)
    && p.sha224.block == 64 && p.sha256.block == 64 && p.sha384.block == 128 && p.sha512.block == 128
    && Sponge.Sane(p.keccak)
  }

  /** The union of contexts. */
  datatype Context<!S(!new)> =
    | OfSha1(sha1: Sha1State<S>)
    | OfMd4(md4: Md4Context<S>)
    | OfMd5(md5: MD5Context<S>)
    | OfSha2(sha2: SHAContext<S>)
    | OfSha3(sha3: SpongeState<S>)

  predicate UsesSha2(method_: Algorithm) {
    method_ == Sha224 || method_ == Sha256 || method_ == Sha384 || method_ == Sha512
  }

  function Sha2Of<S>(p: Primitives<S>, method_: Algorithm): BlockHash.Algorithm<S> {
    match method_
    case Sha224 => p.sha224
    case Sha256 => p.sha256
    case Sha384 => p.sha384
    case _ => p.sha512
  }

  /** Digest size in bits of the sponge methods; 0 for the others. */
  function SpongeBits(method_: Algorithm): nat {
    match method_
    case Keccak_224 => 224
    case RealSha3_224 => 224
    case Keccak_256 => 256
    case RealSha3_256 => 256
    case Keccak_384 => 384
    case RealSha3_384 => 384
    case Keccak_512 => 512
    case RealSha3_512 => 512
    case _ => 0
  }

  function VariantOf(method_: Algorithm): Sha3Variant {
    if method_ == Keccak_224 || method_ == Keccak_256 || method_ == Keccak_384 || method_ == Keccak_512
    then Sha3Variant.Keccak else Sha3Variant.Sha3
  }

  /** `digest` is what the standard of the method gives for `message`. */
  ghost predicate IsDigest<S(!new)>(p: Primitives<S>, method_: Algorithm, message: seq<bv8>, digest: seq<bv8>)
    requires Sound(p)
  {
    if SpongeBits(method_) != 0 then
      && 8 * |digest| == SpongeBits(method_)
      && IsOutput(p.keccak, 1600 - 2 * SpongeBits(method_), ToBits(message) + Suffix(VariantOf(method_)), digest)
    else digest == match method_
      case Md4 => BlockHash.Digest(p.md4, message)
      case Md5 => BlockHash.Digest(p.md5, message)
      case Sha1 => BlockHash.Digest(p.sha1, message)
      case _ => BlockHash.Digest(Sha2Of(p, method_), message)
  }

  /** The digest of each method: SHA-3 appends the bits 01 to the message, Keccak nothing, and the
      sponge's rate leaves twice the digest size for the capacity. */
  lemma DigestMeans<S(!new)>(p: Primitives<S>, method_: Algorithm, message: seq<bv8>, digest: seq<bv8>)
    requires Sound(p) && IsDigest(p, method_, message, digest)
    ensures method_ == Md4 ==> digest == BlockHash.Digest(p.md4, message)
    ensures method_ == Md5 ==> digest == BlockHash.Digest(p.md5, message)
    ensures method_ == Sha1 ==> digest == BlockHash.Digest(p.sha1, message)
    ensures method_ == Sha224 ==> digest == BlockHash.Digest(p.sha224, message)
    ensures method_ == Sha256 ==> digest == BlockHash.Digest(p.sha256, message)
    ensures method_ == Sha384 ==> digest == BlockHash.Digest(p.sha384, message)
    ensures method_ == Sha512 ==> digest == BlockHash.Digest(p.sha512, message)
    ensures method_ == Keccak_224 ==> |digest| == 28 && IsOutput(p.keccak, 1152, ToBits(message), digest)
    ensures method_ == Keccak_256 ==> |digest| == 32 && IsOutput(p.keccak, 1088, ToBits(message), digest)
    ensures method_ == Keccak_384 ==> |digest| == 48 && IsOutput(p.keccak, 832, ToBits(message), digest)
    ensures method_ == Keccak_512 ==> |digest| == 64 && IsOutput(p.keccak, 576, ToBits(message), digest)
    ensures method_ == RealSha3_224 ==> |digest| == 28 && IsOutput(p.keccak, 1152, ToBits(message) + [false, true], digest)
    ensures method_ == RealSha3_256 ==> |digest| == 32 && IsOutput(p.keccak, 1088, ToBits(message) + [false, true], digest)
    ensures method_ == RealSha3_384 ==> |digest| == 48 && IsOutput(p.keccak, 832, ToBits(message) + [false, true], digest)
    ensures method_ == RealSha3_512 ==> |digest| == 64 && IsOutput(p.keccak, 576, ToBits(message) + [false, true], digest)
  {
    assert ToBits(message) + [] == ToBits(message);
  }

  /** There is only one. */
  lemma OneDigest<S(!new)>(p: Primitives<S>, method_: Algorithm, message: seq<bv8>, digest: seq<bv8>, other: seq<bv8>)
    requires Sound(p) && IsDigest(p, method_, message, digest) && IsDigest(p, method_, message, other)
    ensures digest == other
  {
    if SpongeBits(method_) != 0 {
      OneOutput(p.keccak, 1600 - 2 * SpongeBits(method_), ToBits(message) + Suffix(VariantOf(method_)), digest, other);
    }
  }

  /** What one call may add: lengths are `int`, the sponge methods multiply them by 8, and a
      SHA-2 counter must not run over. */
  predicate Fits<S>(p: Primitives<S>, method_: Algorithm, before: nat, length: nat) {
    && length < 0x8000_0000
    && (SpongeBits(method_) != 0 ==> length < 0x1000_0000)
    && (UsesSha2(method_) ==> 8 * (before + length) < Limit(Sha2Of(p, method_)))
  }

  lemma WholeBytesTaken(data: seq<bv8>)
    ensures HighFirst(data, 8 * |data|) == ToBits(data)
  {
    assert 8 * |data| % 8 == 0 && 8 * |data| / 8 == |data|;
    assert ToBits(data)[..8 * |data|] == ToBits(data);
  }

  lemma BitsOfBytes(n: nat)
    ensures 8 * n % 8 == 0
  {
  }

  // ----- the cases of addData and result -------------------------------------------------

  method AddToSponge<S(!new)>(c: SpongeState<S>, ghost message: seq<bv8>, data: seq<bv8>)
    requires c.Absorbing() && c.message == ToBits(message) && |data| < 0x1000_0000
    modifies c, c.dataQueue
    ensures c.Absorbing() && c.message == ToBits(message + data)
  {
    c.Aligned();
    BitsOfBytes(|message|);
    var ignored := c.Update(data, |data| * 8);
    WholeBytesTaken(data);
    ToBitsConcat(message, data);
  }

  method AddToSha2<S(!new)>(c: SHAContext<S>, data: seq<bv8>)
    requires c.Open() && 8 * (|c.message| + |data|) < Limit(c.core.alg)
    modifies c, c.core, c.core.buffer
    ensures c.Open() && c.message == old(c.message) + data
  {
    var ignored := c.Input(data);
  }

  method FinishSha1<S>(c: Sha1State<S>) returns (digest: seq<bv8>)
    requires c.Valid()
    ensures digest == BlockHash.Digest(c.core.alg, c.message)
  {
    var copy := new Sha1State<S>.CopyOf(c);
    digest := copy.Finalize();
  }

  method FinishMd4<S>(c: Md4Context<S>) returns (digest: seq<bv8>)
    requires c.Valid()
    ensures digest == BlockHash.Digest(c.core.alg, c.message)
  {
    var copy := new Md4Context<S>.CopyOf(c);
    digest := copy.Final();
  }

  method FinishMd5<S>(c: MD5Context<S>) returns (digest: seq<bv8>)
    requires c.Valid()
    ensures digest == BlockHash.Digest(c.core.alg, c.message)
  {
    var copy := new MD5Context<S>.CopyOf(c);
    digest := copy.MD5Final();
  }

  method FinishSha2<S>(c: SHAContext<S>) returns (digest: seq<bv8>)
    requires c.Open()
    ensures digest == BlockHash.Digest(c.core.alg, c.message)
  {
    var copy := new SHAContext<S>.CopyOf(c);
    var code;
    code, digest := copy.Result();
  }

  method FinishSha3<S(!new)>(c: SpongeState<S>, ghost message: seq<bv8>, variant: Sha3Variant) returns (digest: seq<bv8>)
    requires c.Absorbing() && Sponge.Sane(c.keccak) && c.message == ToBits(message) && c.fixedOutputLength % 8 == 0
    ensures 8 * |digest| == c.fixedOutputLength
    ensures IsOutput(c.keccak, c.rate, ToBits(message) + Suffix(variant), digest)
  {
    BitsOfBytes(|message|);
    digest := c.Sha3Finish(variant);
  }

  class CryptographicHash<S(!new)> {
    const p: Primitives<S>
    const method_: Algorithm
    var context: Context<S>
    var cached: seq<bv8>
    ghost var message: seq<bv8>

    ghost function Footprint(): set<object>
      reads this
    {
      match context
      case OfSha1(c) => {c, c.core, c.core.buffer}
      case OfMd4(c) => {c, c.core, c.core.buffer}
      case OfMd5(c) => {c, c.core, c.core.buffer}
      case OfSha2(c) => {c, c.core, c.core.buffer}
      case OfSha3(c) => {c, c.dataQueue}
    }

    /** The context has the type of the method and has taken in the message. */
    ghost predicate Took()
      reads this, Footprint()
    {
      match context
      case OfSha1(c) => method_ == Sha1 && c.Valid() && c.core.alg == p.sha1 && c.message == message
      case OfMd4(c) => method_ == Md4 && c.Valid() && c.core.alg == p.md4 && c.message == message
      case OfMd5(c) => method_ == Md5 && c.Valid() && c.core.alg == p.md5 && c.message == message
      case OfSha2(c) => UsesSha2(method_) && c.Open() && c.core.alg == Sha2Of(p, method_) && c.message == message
      case OfSha3(c) =>
        && SpongeBits(method_) != 0 && c.Absorbing() && c.keccak == p.keccak
        && c.rate == 1600 - 2 * SpongeBits(method_) && c.fixedOutputLength == SpongeBits(method_)
        && c.message == ToBits(message)
    }

    ghost predicate Valid()
      reads this, Footprint()
    {
      Sound(p) && Took() && (cached == [] || IsDigest(p, method_, message, cached))
    }

    constructor (p: Primitives<S>, method_: Algorithm)
      requires Sound(p)
      ensures Valid() && fresh(Footprint()) && message == [] && this.p == p && this.method_ == method_
    {
      this.p, this.method_ := p, method_;
      cached, message := [], [];
      var c := new Sha1State<S>(p.sha1);
      context := OfSha1(c);
      new;
      Reset();
    }

    method Reset()
      requires Sound(p)
      modifies this
      ensures Valid() && fresh(Footprint()) && message == [] && cached == []
    {
      hide Sha1State.Valid, Md4Context.Valid, MD5Context.Valid, SHAContext.Open, SpongeState.Absorbing;
      hide IsDigest, IsMd4, IsMd5, IsSha1, IsSha2, Sponge.Sane;
      if SpongeBits(method_) != 0 || UsesSha2(method_) {
        ResetLater();
        return;
      }
      cached, message := [], [];
      if method_ == Sha1 {
        var c := new Sha1State<S>(p.sha1);
        context := OfSha1(c);
      } else if method_ == Md4 {
        var c := new Md4Context<S>(p.md4);
        context := OfMd4(c);
      } else {
        var c := new MD5Context<S>(p.md5);
        context := OfMd5(c);
      }
    }

    /** The same for the SHA-2 and the sponge methods. */
    method ResetLater()
      requires Sound(p) && (SpongeBits(method_) != 0 || UsesSha2(method_))
      modifies this
      ensures Valid() && fresh(Footprint()) && message == [] && cached == []
    {
      hide Sha1State.Valid, Md4Context.Valid, MD5Context.Valid, SHAContext.Open, SpongeState.Absorbing;
      hide IsDigest, IsMd4, IsMd5, IsSha1, IsSha2, Sponge.Sane;
      cached, message := [], [];
      if UsesSha2(method_) {
        var c := new SHAContext<S>(Sha2Of(p, method_));
        context := OfSha2(c);
      } else {
        var code, c := SpongeState.Init(p.keccak, SpongeBits(method_));
        context := OfSha3(c);
      }
    }

    method AddData(data: seq<bv8>)
      requires Valid() && Fits(p, method_, |message|, |data|)
      modifies this, Footprint()
      ensures Valid() && Footprint() == old(Footprint()) && message == old(message) + data && cached == []
    {
      hide Sha1State.Valid, Md4Context.Valid, MD5Context.Valid, SHAContext.Open, SpongeState.Absorbing, IsDigest;
      match context {
        case OfSha1(c) => c.Update(data);
        case OfMd4(c) => c.Update(data);
        case OfMd5(c) => c.MD5Update(data);
        case OfSha2(c) => AddToSha2(c, data);
        case OfSha3(c) => AddToSponge(c, message, data);
      }
      message := message + data;
      cached := [];
    }

    /** The digest of everything added so far.  The context is copied and the copy closed. */
    method Result() returns (digest: seq<bv8>)
      requires Valid()
      modifies this`cached
      ensures Valid() && IsDigest(p, method_, message, digest)
      ensures method_ == Md4 ==> digest == BlockHash.Digest(p.md4, message)
      ensures method_ == Md5 ==> digest == BlockHash.Digest(p.md5, message)
      ensures method_ == Sha1 ==> digest == BlockHash.Digest(p.sha1, message)
      ensures method_ == Sha224 ==> digest == BlockHash.Digest(p.sha224, message)
      ensures method_ == Sha256 ==> digest == BlockHash.Digest(p.sha256, message)
      ensures method_ == Sha384 ==> digest == BlockHash.Digest(p.sha384, message)
      ensures method_ == Sha512 ==> digest == BlockHash.Digest(p.sha512, message)
      ensures method_ == Keccak_224 ==> |digest| == 28 && IsOutput(p.keccak, 1152, ToBits(message), digest)
      ensures method_ == Keccak_256 ==> |digest| == 32 && IsOutput(p.keccak, 1088, ToBits(message), digest)
      ensures method_ == Keccak_384 ==> |digest| == 48 && IsOutput(p.keccak, 832, ToBits(message), digest)
      ensures method_ == Keccak_512 ==> |digest| == 64 && IsOutput(p.keccak, 576, ToBits(message), digest)
      ensures method_ == RealSha3_224 ==> |digest| == 28 && IsOutput(p.keccak, 1152, ToBits(message) + [false, true], digest)
      ensures method_ == RealSha3_256 ==> |digest| == 32 && IsOutput(p.keccak, 1088, ToBits(message) + [false, true], digest)
      ensures method_ == RealSha3_384 ==> |digest| == 48 && IsOutput(p.keccak, 832, ToBits(message) + [false, true], digest)
      ensures method_ == RealSha3_512 ==> |digest| == 64 && IsOutput(p.keccak, 576, ToBits(message) + [false, true], digest)
    {
      hide Sha1State.Valid, Md4Context.Valid, MD5Context.Valid, SHAContext.Open, SpongeState.Absorbing;
      hide IsDigest, IsMd4, IsMd5, IsSha1, IsSha2, Sponge.Sane, IsOutput, ToBits, BlockHash.Digest;
      digest := cached;
      if cached == [] {
        digest := Finish();
        cached := digest;
      }
      DigestMeans(p, method_, message, digest);
    }

    method Finish() returns (digest: seq<bv8>)
      requires Valid()
      ensures IsDigest(p, method_, message, digest)
    {
      hide Sha1State.Valid, Md4Context.Valid, MD5Context.Valid, SHAContext.Open, SpongeState.Absorbing;
      hide IsMd4, IsMd5, IsSha1, IsSha2, Sponge.Sane;
      match context {
        case OfSha1(c) => digest := FinishSha1(c);
        case OfMd4(c) => digest := FinishMd4(c);
        case OfMd5(c) => digest := FinishMd5(c);
        case OfSha2(c) => digest := FinishSha2(c);
        case OfSha3(c) => digest := FinishSha3(c, message, VariantOf(method_));
      }
    }

    /** `CryptographicHash::hash`. */
    static method Hash(p: Primitives<S>, method_: Algorithm, data: seq<bv8>) returns (digest: seq<bv8>)
      requires Sound(p) && Fits(p, method_, 0, |data|)
      ensures IsDigest(p, method_, data, digest)
      ensures method_ == Md4 ==> digest == BlockHash.Digest(p.md4, data)
      ensures method_ == Md5 ==> digest == BlockHash.Digest(p.md5, data)
      ensures method_ == Sha1 ==> digest == BlockHash.Digest(p.sha1, data)
      ensures method_ == Sha224 ==> digest == BlockHash.Digest(p.sha224, data)
      ensures method_ == Sha256 ==> digest == BlockHash.Digest(p.sha256, data)
      ensures method_ == Sha384 ==> digest == BlockHash.Digest(p.sha384, data)
      ensures method_ == Sha512 ==> digest == BlockHash.Digest(p.sha512, data)
      ensures method_ == Keccak_224 ==> |digest| == 28 && IsOutput(p.keccak, 1152, ToBits(data), digest)
      ensures method_ == Keccak_256 ==> |digest| == 32 && IsOutput(p.keccak, 1088, ToBits(data), digest)
      ensures method_ == Keccak_384 ==> |digest| == 48 && IsOutput(p.keccak, 832, ToBits(data), digest)
      ensures method_ == Keccak_512 ==> |digest| == 64 && IsOutput(p.keccak, 576, ToBits(data), digest)
      ensures method_ == RealSha3_224 ==> |digest| == 28 && IsOutput(p.keccak, 1152, ToBits(data) + [false, true], digest)
      ensures method_ == RealSha3_256 ==> |digest| == 32 && IsOutput(p.keccak, 1088, ToBits(data) + [false, true], digest)
      ensures method_ == RealSha3_384 ==> |digest| == 48 && IsOutput(p.keccak, 832, ToBits(data) + [false, true], digest)
      ensures method_ == RealSha3_512 ==> |digest| == 64 && IsOutput(p.keccak, 576, ToBits(data) + [false, true], digest)
    {
      var hash := new CryptographicHash<S>(p, method_);
      hash.AddData(data);
      assert hash.message == data;
      digest := hash.Result();
    }
  }
}
