/** `checksum` of src/kernel/StringUtils.cpp: a CRC-16 that takes a nibble at a time from a
    table, against the bit by bit definition of section C.2 of RFC 1662. */
module Checksum {

  const POLYNOMIAL: bv16 := 0x8408

  /** The sixteen entries of the table. */
  function CrcTable(n: bv16): bv16
    requires n < 16
  {
    if n == 0 then 0x0000 else if n == 1 then 0x1081 else if n == 2 then 0x2102 else if n == 3 then 0x3183
    else if n == 4 then 0x4204 else if n == 5 then 0x5285 else if n == 6 then 0x6306 else if n == 7 then 0x7387
    else if n == 8 then 0x8408 else if n == 9 then 0x9489 else if n == 10 then 0xa50a else if n == 11 then 0xb58b
    else if n == 12 then 0xc60c else if n == 13 then 0xd68d else if n == 14 then 0xe70e else 0xf78f
  }

  /** One bit of the reflected division by the polynomial. */
  function BitStep(crc: bv16): bv16 {
    if crc & 1 == 1 then (crc >> 1) ^ POLYNOMIAL else crc >> 1
  }

  function FourBits(crc: bv16): bv16 {
    BitStep(BitStep(BitStep(BitStep(crc))))
  }

  /** One byte, least significant bit first. */
  function ByteStep(crc: bv16, c: bv8): bv16 {
    FourBits(FourBits(crc ^ c as bv16))
  }

  /** The register after a byte string. */
  function Register(data: seq<bv8>): bv16 {
    if data == [] then 0xffff else ByteStep(Register(data[..|data| - 1]), data[|data| - 1])
  }

  /** One table look-up. */
  function NibbleStep(crc: bv16, c: bv16): bv16 {
    ((crc >> 4) & 0x0fff) ^ CrcTable((crc ^ c) & 15)
  }

  /** What four bits do: the upper bits move down, and the table says what the lower ones change. */
  lemma FourBitsAre(y: bv16)
    ensures FourBits(y) == (y >> 4) ^ CrcTable(y & 15)
  {
  }

  lemma UpperBits(crc: bv16, c: bv16)
    requires c < 16
    ensures (crc ^ c) >> 4 == (crc >> 4) & 0x0fff
  {
  }

  /** The table holds what four bits do. */
  lemma NibbleIsFourBits(crc: bv16, c: bv16)
    requires c < 16
    ensures NibbleStep(crc, c) == FourBits(crc ^ c)
  {
    hide FourBits, CrcTable;
    FourBitsAre(crc ^ c);
    UpperBits(crc, c);
  }

  lemma HalvesOfByte(crc: bv16, c: bv8)
    ensures FourBits(FourBits(crc ^ (c & 15) as bv16) ^ (c >> 4) as bv16) == ByteStep(crc, c)
  {
  }

  /** A look-up only sees the low nibble of the byte. */
  lemma NibbleLow(crc: bv16, c: bv8)
    ensures NibbleStep(crc, c as bv16) == NibbleStep(crc, (c & 15) as bv16)
  {
  }

  lemma NibblesOfByte(c: bv8)
    ensures (c & 15) as bv16 < 16 && (c >> 4) as bv16 < 16
  {
  }

  /** Two look-ups are one byte. */
  lemma ByteIsNibbles(crc: bv16, c: bv8)
    ensures NibbleStep(NibbleStep(crc, c as bv16), (c >> 4) as bv16) == ByteStep(crc, c)
  {
    hide NibbleStep, FourBits, ByteStep;
    NibblesOfByte(c);
    NibbleLow(crc, c);
    NibbleIsFourBits(crc, (c & 15) as bv16);
    NibbleIsFourBits(FourBits(crc ^ (c & 15) as bv16), (c >> 4) as bv16);
    HalvesOfByte(crc, c);
  }

  method Sum(data: seq<bv8>) returns (sum: bv16)
    ensures sum == !Register(data)
  {
    var crc: bv16 := 0xffff;
    var k := 0;
    while k < |data|
      invariant k <= |data| && crc == Register(data[..k])
    {
      var c := data[k];
      ByteIsNibbles(crc, c);
      crc := NibbleStep(crc, c as bv16);
      c := c >> 4;
      crc := NibbleStep(crc, c as bv16);
      assert data[..k + 1][..k] == data[..k];
      k := k + 1;
    }
    assert data[..k] == data;
    AllBits(!crc);
    sum := !crc & 0xffff;
  }

  lemma AllBits(x: bv16)
    ensures x & 0xffff == x
  {
  }

  lemma {:induction false} RegisterEach(data: seq<bv8>, registers: seq<bv16>, k: nat)
    requires k <= |data| && |registers| == |data| + 1 && registers[0] == 0xffff
    requires forall j :: 0 <= j < |data| ==> registers[j + 1] == ByteStep(registers[j], data[j])
    ensures Register(data[..k]) == registers[k]
  {
    if k > 0 {
      RegisterEach(data, registers, k - 1);
      assert data[..k][..k - 1] == data[..k - 1];
    }
  }

  /** The check value of this CRC: the checksum of the digits 1 to 9 is 0x906E. */
  lemma KnownChecksum()
    ensures !Register([0x31, 0x32, 0x33, 0x34, 0x35, 0x36, 0x37, 0x38, 0x39]) == 0x906E
  {
    var data: seq<bv8> := [0x31, 0x32, 0x33, 0x34, 0x35, 0x36, 0x37, 0x38, 0x39];
    RegisterEach(data, [0xffff, 0x2f8d, 0x4d53, 0x634b, 0x8b13, 0x44bf, 0x198d, 0x1ac8, 0xf795, 0x6f91], 9);
    assert data[..9] == data;
  }

  const GOOD: bv16 := 0xf0b8

  lemma Residue(crc: bv16)
    ensures ByteStep(ByteStep(crc, Low(!crc)), High(!crc)) == GOOD
  {
  }

  function Low(x: bv16): bv8 {
    (x & 0xff) as bv8
  }

  function High(x: bv16): bv8 {
    (x >> 8) as bv8
  }

  lemma RegisterTwo(data: seq<bv8>, a: bv8, b: bv8)
    ensures Register(data + [a, b]) == ByteStep(ByteStep(Register(data), a), b)
  {
    assert (data + [a, b])[..|data| + 1] == data + [a];
    assert (data + [a])[..|data|] == data;
  }

  /** Data followed by its checksum, low byte first, always leaves the same register. */
  lemma ChecksumVerifies(data: seq<bv8>)
    ensures Register(data + [Low(!Register(data)), High(!Register(data))]) == GOOD
  {
    RegisterTwo(data, Low(!Register(data)), High(!Register(data)));
    Residue(Register(data));
  }
}
