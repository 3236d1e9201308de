/** Bytes as eight bits, least significant first: the bit order in which FIPS 202, section B.1,
    reads a byte string, and in which the code of thirdparty/sha3 numbers bits. */
module Bits {

  /** `1 << k`. */
  function OneBit(k: nat): bv8
    requires k < 8
  {
    (1 as bv8) << k
  }

  predicate Bit(b: bv8, k: nat)
    requires k < 8
  {
    b & OneBit(k) != 0
  }

  lemma OneBitValues()
    ensures OneBit(0) == 1 && OneBit(1) == 2 && OneBit(2) == 4 && OneBit(3) == 8
    ensures OneBit(4) == 16 && OneBit(5) == 32 && OneBit(6) == 64 && OneBit(7) == 128
  {
  }

  /** `b |= 1 << k` sets bit `k` and no other. */
  lemma SetBit(b: bv8, k: nat, t: nat)
    requires k < 8 && t < 8
    ensures Bit(b | OneBit(k), t) == (k == t || Bit(b, t))
  {
    OneBitValues();
  }

  /** `b & ((1 << k) - 1)` keeps the low `k` bits. */
  lemma LowBits(b: bv8, k: nat, t: nat)
    requires k < 8 && t < 8
    ensures Bit(b & (OneBit(k) - 1), t) == (t < k && Bit(b, t))
  {
    OneBitValues();
  }

  /** `b >> (8 - k)` moves the high `k` bits to the low end and clears the others. */
  lemma HighBits(b: bv8, k: nat, t: nat)
    requires 0 < k < 8 && t < 8
    ensures Bit(b >> (8 - k), t) == (t < k && Bit(b, 8 - k + t))
  {
    OneBitValues();
    if k == 1 { } else if k == 2 { } else if k == 3 { } else if k == 4 { } else if k == 5 { } else if k == 6 { } else { }
  }

  lemma ZeroBits(t: nat)
    requires t < 8
    ensures !Bit(0, t)
  {
    OneBitValues();
  }

  function ByteBits(b: bv8): (bits: seq<bool>)
    ensures |bits| == 8
    ensures forall t :: 0 <= t < 8 ==> bits[t] == Bit(b, t)
  {
    seq(8, t requires 0 <= t < 8 => Bit(b, t))
  }

  function ToBits(bytes: seq<bv8>): (bits: seq<bool>)
    ensures |bits| == 8 * |bytes|
  {
    if bytes == [] then [] else ToBits(bytes[..|bytes| - 1]) + ByteBits(bytes[|bytes| - 1])
  }

  lemma ToBitsOne(b: bv8)
    ensures ToBits([b]) == ByteBits(b)
  {
    assert [b][..0] == [];
    assert [] + ByteBits(b) == ByteBits(b);
  }

  lemma {:induction false} ToBitsConcat(a: seq<bv8>, b: seq<bv8>)
    ensures ToBits(a + b) == ToBits(a) + ToBits(b)
  {
    if b == [] {
      assert a + b == a;
    } else {
      assert (a + b)[..|a + b| - 1] == a + b[..|b| - 1];
      ToBitsConcat(a, b[..|b| - 1]);
    }
  }

  /** Bit `8 * i + t` of a byte string is bit `t` of byte `i`. */
  lemma {:induction false} ToBitsAt(bytes: seq<bv8>, i: nat, t: nat)
    requires i < |bytes| && t < 8
    ensures ToBits(bytes)[8 * i + t] == Bit(bytes[i], t)
  {
    if i < |bytes| - 1 {
      ToBitsAt(bytes[..|bytes| - 1], i, t);
    }
  }

  lemma Parts<T>(s: seq<T>, lo: nat, hi: nat)
    requires lo <= hi <= |s|
    ensures s == (s[..lo] + s[lo..hi]) + s[hi..]
  {
  }

  lemma ToBitsMiddle(front: seq<bv8>, middle: seq<bv8>, back: seq<bv8>, lo: nat, hi: nat)
    requires lo == 8 * |front| && hi == lo + 8 * |middle|
    ensures hi <= |ToBits((front + middle) + back)|
    ensures ToBits((front + middle) + back)[lo..hi] == ToBits(middle)
  {
    ToBitsConcat(front + middle, back);
    ToBitsConcat(front, middle);
  }

  lemma ToBitsSlice(bytes: seq<bv8>, lo: nat, hi: nat)
    requires lo <= hi <= |bytes|
    ensures ToBits(bytes[lo..hi]) == ToBits(bytes)[8 * lo..8 * hi]
  {
    Parts(bytes, lo, hi);
    ToBitsMiddle(bytes[..lo], bytes[lo..hi], bytes[hi..], 8 * lo, 8 * hi);
  }
}
