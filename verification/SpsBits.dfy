/** The bit reader of stream/sps.hpp, which scans the bytes one bit at a time. It decodes
    the same fields and Exp-Golomb codes as the cached reader of stream/minimp4.hpp. */
module SpsBits {
  import opened Bits
  import opened BitReader

  /** `buf[p / 8] & (0x80 >> (p % 8))`. */
  predicate BitSet(b: Byte, k: nat)
    requires k < 8
  {
    Shr(b, 7 - k) % 2 == 1
  }

  lemma {:induction false} BitSetIs(v: nat, n: nat, k: nat)
    requires k < n
    ensures ToBits(v, n)[k] == (Shr(v, n - 1 - k) % 2 == 1)
    decreases n
  {
    if k < n - 1 {
      BitSetIs(v / 2, n - 1, k);
    }
  }

  lemma BitSetAt(buf: seq<Byte>, p: nat)
    requires p < 8 * |buf|
    ensures BitSet(buf[p / 8], p % 8) == BitsOf(buf)[p]
  {
    BitOfByte(buf, p);
    BitSetIs(buf[p / 8], 8, p % 8);
  }

  lemma FieldStep(d: seq<bool>, pos: nat, n: nat)
    requires pos + n + 1 <= |d|
    ensures Field(d, pos, n + 1) == 2 * Field(d, pos, n) + if d[pos + n] then 1 else 0
  {
    FieldJoin(d, pos, n, 1);
    OneBitField(d, pos + n);
    assert Pow2(1) == 2;
  }

  /** `u`: an unsigned field of BitCount bits. */
  method U(bitCount: nat, buf: seq<Byte>, startBit: nat) returns (ret: nat, nStartBit: nat)
    requires bitCount <= 32 && startBit + bitCount <= 8 * |buf|
    ensures ret == Field(BitsOf(buf), startBit, bitCount) && nStartBit == startBit + bitCount
  {
    hide BitsOf, Field, BitSet;
    ret, nStartBit := 0, startBit;
    EmptyField(BitsOf(buf), startBit);
    for i := 0 to bitCount
      invariant nStartBit == startBit + i && ret == Field(BitsOf(buf), startBit, i)
    {
      ret := 2 * ret;
      BitSetAt(buf, nStartBit);
      FieldStep(BitsOf(buf), startBit, i);
      if BitSet(buf[nStartBit / 8], nStartBit % 8) {
        ret := ret + 1;
      }
      nStartBit := nStartBit + 1;
    }
  }

  /** `Ue`: counts zeros, then reads as many bits. */
  method Ue(buf: seq<Byte>, startBit: nat) returns (ret: nat, nStartBit: nat)
    requires startBit < 8 * |buf| && UeAt(BitsOf(buf), startBit) && LeadingZeros(BitsOf(buf), startBit) < 32
    ensures ret == UeValue(BitsOf(buf), startBit)
    ensures nStartBit == startBit + UeLength(BitsOf(buf), startBit)
  {
    hide BitsOf, Field, BitSet, Pow2;
    ghost var d := BitsOf(buf);
    var zeroNum := 0;
    nStartBit := startBit;
    while nStartBit < |buf| * 8
      invariant nStartBit == startBit + zeroNum <= |d|
      invariant LeadingZeros(d, startBit) == zeroNum + LeadingZeros(d, nStartBit)
    {
      BitSetAt(buf, nStartBit);
      if BitSet(buf[nStartBit / 8], nStartBit % 8) { break; }
      zeroNum := zeroNum + 1;
      nStartBit := nStartBit + 1;
    }
    nStartBit := nStartBit + 1;
    ret, nStartBit := U(zeroNum, buf, nStartBit);
    ret := Pow2(zeroNum) - 1 + ret;
  }

  /** The signed value of section 9.1.1 of ITU-T H.264. */
  function SeValue(k: nat): int {
    if k % 2 == 0 then -(k / 2) else (k + 1) / 2
  }

  /** `Se`. */
  method Se(buf: seq<Byte>, startBit: nat) returns (ret: int, nStartBit: nat)
    requires startBit < 8 * |buf| && UeAt(BitsOf(buf), startBit) && LeadingZeros(BitsOf(buf), startBit) < 32
    ensures ret == SeValue(UeValue(BitsOf(buf), startBit))
    ensures nStartBit == startBit + UeLength(BitsOf(buf), startBit)
  {
    hide BitsOf;
    var ueVal;
    ueVal, nStartBit := Ue(buf, startBit);
    ret := (ueVal + 1) / 2;
    if ueVal % 2 == 0 {
      ret := -ret;
    }
  }

  /** The code number of a signed value. */
  function SeCode(v: int): nat {
    if v > 0 then 2 * v - 1 else -2 * v
  }

  /** Table 9-3 of ITU-T H.264: 1, -1, 2, -2 and so on from code number 1 on. */
  lemma SeTable(k: nat)
    ensures SeValue(0) == 0 && SeValue(2 * k + 1) == k + 1 && SeValue(2 * k + 2) == -(k + 1)
  {}

  /** Every integer has exactly one signed code number. */
  lemma SeBijective(v: int, k: nat)
    ensures SeValue(k) == v <==> k == SeCode(v)
  {
    if k % 2 == 0 {
      assert k == 2 * (k / 2);
    } else {
      assert k == 2 * ((k + 1) / 2) - 1;
    }
  }
}
