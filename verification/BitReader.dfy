/** The input bitstream of stream/minimp4.hpp: a look-ahead cache refilled sixteen bits at
    a time, and the Exp-Golomb reader on top of it. */
module BitReader {
  import opened Seqs
  import opened Bits
  import opened BitWriter

  /** The number in the n bits at position pos. */
  function Field(d: seq<bool>, pos: nat, n: nat): (v: nat)
    requires pos + n <= |d|
    ensures v < Pow2(n)
  {
    FromBits(d[pos..pos + n])
  }

  /** The zeros in front of the next one bit. */
  function LeadingZeros(d: seq<bool>, pos: nat): (z: nat)
    requires pos <= |d|
    ensures pos + z <= |d|
    decreases |d| - pos
  {
    if pos == |d| || d[pos] then 0 else 1 + LeadingZeros(d, pos + 1)
  }

  /** An unsigned Exp-Golomb code lies within the string at pos. */
  predicate UeAt(d: seq<bool>, pos: nat)
    requires pos <= |d|
  {
    pos + 2 * LeadingZeros(d, pos) + 1 <= |d|
  }

  function UeLength(d: seq<bool>, pos: nat): nat
    requires pos <= |d|
  {
    2 * LeadingZeros(d, pos) + 1
  }

  /** Section 9.1 of ITU-T H.264. */
  function UeValue(d: seq<bool>, pos: nat): nat
    requires pos <= |d| && UeAt(d, pos)
  {
    var z := LeadingZeros(d, pos);
    Pow2(z) - 1 + Field(d, pos + z + 1, z)
  }

  lemma {:induction false} LeadingZerosAre(d: seq<bool>, pos: nat, z: nat)
    requires pos + z < |d| && (forall i | pos <= i < pos + z :: !d[i]) && d[pos + z]
    ensures LeadingZeros(d, pos) == z
    decreases z
  {
    if z > 0 {
      LeadingZerosAre(d, pos + 1, z - 1);
    }
  }

  /** The reader's view of a code the writer produced: same value, same length. */
  lemma UeOfCode(d: seq<bool>, pos: nat, v: nat)
    requires pos + |UeCode(v)| <= |d| && d[pos..pos + |UeCode(v)|] == UeCode(v)
    ensures UeAt(d, pos) && UeLength(d, pos) == |UeCode(v)| && UeValue(d, pos) == v
  {
    hide Size, ToBits, FromBits, Pow2;
    var n := Size(v + 1);
    SizeBound(v + 1);
    var c, t := UeCode(v), ToBits(v + 1, n);
    FromToBits(v + 1, n);
    TopBit(v + 1, n);
    forall i | 0 <= i < |c| ensures d[pos + i] == c[i] {
      assert d[pos..pos + |c|][i] == c[i];
    }
    assert forall i | pos <= i < pos + n - 1 :: !d[i] == !c[i - pos];
    LeadingZerosAre(d, pos, n - 1);
    var rest := d[pos + n..pos + 2 * n - 1];
    assert t == [true] + rest;
    FromBitsJoin([true], rest);
    OneBit();
  }

  lemma OneBit()
    ensures FromBits([true]) == 1
  {}

  lemma TopBit(t: nat, n: nat)
    requires n > 0 && Pow2(n - 1) <= t < Pow2(n)
    ensures ToBits(t, n)[0]
  {
    hide Shr;
    ToBitsSplit(t, 1, n - 1);
    var low := ShrParts(t, n - 1);
    assert Shr(t, n - 1) == 1 by {
      if Shr(t, n - 1) == 0 {
      } else if Shr(t, n - 1) >= 2 {
        MulMono(2, Shr(t, n - 1), Pow2(n - 1));
      }
    }
    assert ToBits(1, 1)[0];
  }

  // ---------------------------------------------------------------- the cached reader

  /** A cache with the `have` bits at position pos at its most significant end. */
  ghost predicate Holds(d: seq<bool>, pos: nat, have: nat, cache: nat)
    requires have <= 32 && pos + have <= |d|
  {
    cache == Field(d, pos, have) * Pow2(32 - have)
  }

  /** LOAD_SHORT. */
  function Short(a: Byte, b: Byte): nat { 256 * a as nat + b as nat }

  class Reader {
    const mem: seq<Byte>     // the memory behind `origin`, readable beyond the data
    const originBytes: nat   // length of the data in it
    var buf: nat             // next sixteen-bit unit to load, `buf - origin`
    var cache: nat           // look-ahead bits, filled from the most significant end
    var freeBits: int        // sixteen minus the number of bits in the cache

    ghost predicate Valid()
      reads this
    {
      && -16 <= freeBits < 0
      && Cached()
    }

    // The cache invariant, also in force while a position is being set.
    ghost predicate Cached()
      reads this
    {
      && -16 <= freeBits <= 16
      && 16 - freeBits <= 16 * buf && 2 * buf <= |mem| && originBytes <= |mem|
      && Holds(BitsOf(mem), Pos(), 16 - freeBits, cache)
    }

    /** The bit position of the next bit to read. */
    function Pos(): (p: nat)
      requires 16 - freeBits <= 16 * buf
      reads this
    {
      16 * buf - (16 - freeBits)
    }

    /** The reader loads ahead: reading n bits may touch this much memory. */
    predicate Room(n: nat)
      requires 16 - freeBits <= 16 * buf
      reads this
    {
      Pos() + n + 32 <= 8 * |mem|
    }

    /** init_bits. */
    constructor (mem: seq<Byte>, dataBytes: nat)
      requires dataBytes <= |mem| && |mem| >= 4
      ensures Valid() && Pos() == 0
      ensures this.mem == mem && originBytes == dataBytes
    {
      this.mem, originBytes := mem, dataBytes;
      buf, cache, freeBits := 0, 0, 16;
      new;
      SetPosBits(0);
    }

    /** set_pos_bits. */
    method SetPosBits(pos: nat)
      requires pos + 32 <= 8 * |mem| && originBytes <= |mem|
      modifies this
      ensures Valid() && Pos() == pos
    {
      hide BitsOf, Holds;
      buf := pos / 16;
      cache := 0;
      freeBits := 16;
      HoldsNothing(BitsOf(mem), pos / 16 * 16);
      FlushBits(0);
      FlushBits(pos % 16);
    }

    /** flush_bits: drops n bits and refills the cache when at least sixteen are free. */
    method FlushBits(n: nat)
      requires Cached() && n <= 16 && n <= 16 - freeBits
      requires freeBits + n >= 0 ==> 2 * (buf + 1) <= |mem|
      modifies this
      ensures Cached() && Pos() == old(Pos()) + n
      ensures freeBits == if old(freeBits) + n >= 0 then old(freeBits) + n - 16 else old(freeBits) + n
    {
      hide BitsOf, Field, Shl32, Holds, Short;
      ghost var d := BitsOf(mem);
      DropBits(d, Pos(), 16 - freeBits, n, cache);
      cache := Shl32(cache, n);
      freeBits := freeBits + n;
      if freeBits >= 0 {
        ShortField(mem, buf);
        Refill(d, Pos(), freeBits, cache);
        cache := cache + Shl32(Short(mem[2 * buf], mem[2 * buf + 1]), freeBits);
        buf := buf + 1;
        freeBits := freeBits - 16;
      }
    }

    /** show_bits. */
    method ShowBits(n: nat) returns (v: nat)
      requires Valid() && 1 <= n <= 16
      ensures v == Field(BitsOf(mem), Pos(), n)
    {
      hide BitsOf, Field, Shl32, Holds, Short;
      DropBits(BitsOf(mem), Pos(), 16 - freeBits, n, cache);
      v := Shr(cache, 32 - n);
    }

    /** get_bits. */
    method GetBits(n: nat) returns (v: nat)
      requires Valid() && 1 <= n <= 16 && Room(n)
      modifies this
      ensures Valid() && Pos() == old(Pos()) + n
      ensures v == Field(BitsOf(mem), old(Pos()), n)
    {
      hide BitsOf, Field;
      v := ShowBits(n);
      FlushBits(n);
    }

    /** get_pos_bits. */
    method GetPosBits() returns (pos: nat)
      requires Valid()
      ensures pos == Pos()
    {
      pos := buf * 16;
      pos := pos - (16 - freeBits);
    }

    /** remaining_bits. */
    method RemainingBits() returns (n: int)
      requires Valid()
      ensures n == 8 * originBytes - Pos()
    {
      var pos := GetPosBits();
      n := originBytes * 8 - pos;
    }

    /** ue_bits. */
    method UeBits() returns (val: nat)
      requires Valid() && UeAt(BitsOf(mem), Pos()) && LeadingZeros(BitsOf(mem), Pos()) <= 16
      requires Room(UeLength(BitsOf(mem), Pos()))
      modifies this
      ensures Valid() && Pos() == old(Pos()) + UeLength(BitsOf(mem), old(Pos()))
      ensures val == UeValue(BitsOf(mem), old(Pos()))
    {
      hide BitsOf, Field, Holds, Pow2;
      ghost var d, p := BitsOf(mem), Pos();
      var clz := 0;
      while true
        invariant Valid() && Pos() == p + clz && LeadingZeros(d, p) == clz + LeadingZeros(d, p + clz)
        invariant d == BitsOf(mem)
        decreases |d| - Pos()
      {
        var bit := GetBits(1);
        OneBitField(d, p + clz);
        if bit != 0 { break; }
        clz := clz + 1;
      }
      val := Pow2(clz) - 1;
      if clz != 0 {
        var low := GetBits(clz);
        val := val + low;
      } else {
        EmptyField(d, p + 1);
      }
    }
  }

  lemma OneBitField(d: seq<bool>, pos: nat)
    requires pos < |d|
    ensures Field(d, pos, 1) == if d[pos] then 1 else 0
  {
    assert d[pos..pos + 1] == [d[pos]];
    assert FromBits([]) == 0;
  }

  lemma EmptyField(d: seq<bool>, pos: nat)
    requires pos <= |d|
    ensures Field(d, pos, 0) == 0
  {}

  lemma HoldsNothing(d: seq<bool>, pos: nat)
    requires pos <= |d|
    ensures Holds(d, pos, 0, 0)
  {
    hide Pow2;
    EmptyField(d, pos);
  }

  lemma FieldJoin(d: seq<bool>, pos: nat, n: nat, k: nat)
    requires pos + n + k <= |d|
    ensures Field(d, pos, n + k) == Field(d, pos, n) * Pow2(k) + Field(d, pos + n, k)
  {
    hide FromBits, Pow2;
    Slices(d, pos, pos + n, pos + n + k);
    FromBitsJoin(d[pos..pos + n], d[pos + n..pos + n + k]);
  }

  // The first n of the cached bits, and the cache without them.
  lemma DropBits(d: seq<bool>, pos: nat, have: nat, n: nat, cache: nat)
    requires n <= have <= 32 && pos + have <= |d|
    requires Holds(d, pos, have, cache)
    ensures Shr(cache, 32 - n) == Field(d, pos, n)
    ensures Holds(d, pos + n, have - n, Shl32(cache, n))
  {
    hide Pow2, Field, Shr, Shl32;
    var x, y, k := Field(d, pos, n), Field(d, pos + n, have - n), 32 - have;
    FieldJoin(d, pos, n, have - n);
    Distribute(x * Pow2(have - n), y, Pow2(k));
    MulAssoc(x, Pow2(have - n), Pow2(k));
    Pow2Add(have - n, k);
    var low := y * Pow2(k);
    assert cache == x * Pow2(32 - n) + low;
    ShlSmall(y, have - n, k);
    ShrJoin(x, low, 32 - n);
    ShlDrop(x, low, 32 - n);
    ShlSmall(low, 32 - n, n);
    MulAssoc(y, Pow2(k), Pow2(n));
    Pow2Add(k, n);
  }

  // Sixteen more bits behind the sixteen - f cached ones.
  lemma Refill(d: seq<bool>, pos: nat, f: nat, cache: nat)
    requires f <= 16 && pos + 32 - f <= |d|
    requires Holds(d, pos, 16 - f, cache)
    ensures Holds(d, pos, 32 - f, cache + Shl32(Field(d, pos + 16 - f, 16), f))
  {
    hide Pow2, Field, Shl32;
    var y, s := Field(d, pos, 16 - f), Field(d, pos + 16 - f, 16);
    FieldJoin(d, pos, 16 - f, 16);
    ShlSmall(s, 16, f);
    Distribute(y * Pow2(16), s, Pow2(f));
    MulAssoc(y, Pow2(16), Pow2(f));
    Pow2Add(16, f);
  }

  // LOAD_SHORT: the next sixteen-bit unit is the next sixteen bits.
  lemma ShortField(mem: seq<Byte>, unit: nat)
    requires 2 * (unit + 1) <= |mem|
    ensures Short(mem[2 * unit], mem[2 * unit + 1]) == Field(BitsOf(mem), 16 * unit, 16)
  {
    hide ToBits, FromBits, BitsOf, Pow2, Field;
    var a, b := mem[2 * unit], mem[2 * unit + 1];
    assert mem[2 * unit..2 * unit + 2] == [a, b];
    BytesField(mem, 2 * unit, 2 * unit + 2);
    PairValue(a, b);
  }

  lemma FieldIs(d: seq<bool>, pos: nat, n: nat, end: nat)
    requires pos + n == end <= |d|
    ensures Field(d, pos, n) == FromBits(d[pos..end])
  {}

  lemma BytesField(mem: seq<Byte>, i: nat, j: nat)
    requires i <= j <= |mem|
    ensures Field(BitsOf(mem), 8 * i, 8 * (j - i)) == FromBits(BitsOf(mem[i..j]))
  {
    hide FromBits, BitsOf, Pow2;
    BitsOfSlice(mem, i, j);
    FieldIs(BitsOf(mem), 8 * i, 8 * (j - i), 8 * j);
  }

  lemma PairValue(a: Byte, b: Byte)
    ensures FromBits(BitsOf([a, b])) == Short(a, b)
  {
    hide ToBits, FromBits, BitsOf, Pow2;
    PairBits(a, b);
    FromBitsJoin(ToBits(a, 8), ToBits(b, 8));
    Pow2Byte();
    FromToBits(a, 8);
    FromToBits(b, 8);
  }

  lemma Pow2Byte()
    ensures Pow2(8) == 256
  {}

  lemma PairBits(a: Byte, b: Byte)
    ensures BitsOf([a, b]) == ToBits(a, 8) + ToBits(b, 8)
  {
    hide ToBits;
    assert [a, b][..1] == [a];
    assert BitsOf([a]) == BitsOf([]) + ToBits(a, 8) == ToBits(a, 8);
  }
}
