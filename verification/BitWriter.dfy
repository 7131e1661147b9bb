/** The output bitstream of stream/minimp4.hpp: a 32-bit cache in front of a buffer of
    big-endian words, and the Exp-Golomb writer on top of it. */
module BitWriter {
  import opened Seqs
  import opened Bits

  lemma Pow2Word()
    ensures Pow2(32) == WORD
  {
    Pow2Half();
    Pow2Add(16, 16);
  }

  lemma Pow2Half()
    ensures Pow2(16) == 65536
  {
    assert Pow2(8) == 256;
    Pow2Add(8, 8);
  }

  /** val << s in 32 bits. */
  function Shl32(val: nat, s: nat): (r: nat)
    ensures r < WORD
  {
    val * Pow2(s) % WORD
  }

  /** The cache has nothing below its free bits. */
  predicate Aligned(cache: nat, free: nat) {
    cache < WORD && cache == Shr(cache, free) * Pow2(free)
  }

  /** A 32-bit word as stored by `SWAP32` on a little-endian machine. */
  function BigEndian(w: nat): (s: seq<Byte>)
    requires w < WORD
    ensures |s| == 4
  {
    [w / 0x100_0000, w / 0x1_0000 % 256, w / 256 % 256, w % 256]
  }

  lemma BigEndianBits(w: nat)
    requires w < WORD
    ensures BitsOf(BigEndian(w)) == ToBits(w, 32)
  {
    hide ToBits, Shr, BitsOf;
    var s := BigEndian(w);
    ToBitsSplit(w, 24, 8);
    ToBitsSplit(w / 0x100, 16, 8);
    ToBitsSplit(w / 0x1_0000, 8, 8);
    ByteMod(w);
    ByteMod(w / 0x100);
    ByteMod(w / 0x1_0000);
    BytesBits(s[0], s[1], s[2], s[3]);
    assert w / 0x100 / 0x100 == w / 0x1_0000 && w / 0x1_0000 / 0x100 == s[0];
  }

  lemma BytesBits(a: Byte, b: Byte, c: Byte, d: Byte)
    ensures BitsOf([a, b, c, d]) == ToBits(a, 8) + ToBits(b, 8) + ToBits(c, 8) + ToBits(d, 8)
  {
    hide ToBits;
    assert [a, b, c, d][..3] == [a, b, c] && [a, b, c][..2] == [a, b] && [a, b][..1] == [a];
    assert BitsOf([a]) == BitsOf([]) + ToBits(a, 8) == ToBits(a, 8);
    assert BitsOf([a, b]) == BitsOf([a]) + ToBits(b, 8);
    assert BitsOf([a, b, c]) == BitsOf([a, b]) + ToBits(c, 8);
  }

  lemma ByteMod(v: nat)
    ensures ToBits(v, 8) == ToBits(v % 256, 8) && Shr(v, 8) == v / 256
  {
    hide ToBits;
    assert Pow2(8) == 256;
    ToBitsMod(v / 256, v % 256, 8);
    ShrJoin(v / 256, v % 256, 8);
  }

  // ---------------------------------------------------------------- Exp-Golomb codes

  /** The number of bits of t. */
  function Size(t: nat): nat {
    if t == 0 then 0 else 1 + Size(t / 2)
  }

  lemma {:induction false} SizeBound(t: nat)
    ensures t < Pow2(Size(t))
    ensures t > 0 ==> Size(t) > 0 && Pow2(Size(t) - 1) <= t
  {
    if t > 0 {
      SizeBound(t / 2);
    }
  }

  /** The unsigned code of section 9.1 of ITU-T H.264: as many zeros as the significant
      bits of v + 1 that follow its leading one. */
  function UeCode(v: nat): (b: seq<bool>)
    ensures |b| == 2 * Size(v + 1) - 1
  {
    Zeros(Size(v + 1) - 1) + ToBits(v + 1, Size(v + 1))
  }

  /** A code is n zeros, a one, and the n bits that v + 1 has behind its leading one. */
  lemma CodeIs(v: nat, n: nat)
    requires Pow2(n) <= v + 1 < 2 * Pow2(n)
    ensures UeCode(v) == Zeros(n) + [true] + ToBits(v + 1 - Pow2(n), n)
  {
    hide ToBits, Pow2, Size, Zeros;
    var u := v + 1 - Pow2(n);
    SizeIs(v + 1, n);
    ToBitsJoin(1, 1, u, n);
    assert ToBits(v + 1, n + 1) == ToBits(1, 1) + ToBits(u, n);
    OneBit();
    Assoc(Zeros(n), [true], ToBits(u, n));
  }

  lemma OneBit()
    ensures ToBits(1, 1) == [true]
  {
    assert ToBits(0, 0) == [];
  }

  lemma {:induction false} SizeIs(t: nat, n: nat)
    requires Pow2(n) <= t < 2 * Pow2(n)
    ensures Size(t) == n + 1
  {
    if n == 0 {
      assert Size(1 / 2) == 0;
    } else {
      SizeIs(t / 2, n - 1);
    }
  }

  /** The first codes of Table 9-2 of ITU-T H.264. */
  lemma FirstCodes()
    ensures UeCode(0) == [true] && UeCode(1) == [false, true, false] && UeCode(2) == [false, true, true]
    ensures UeCode(3) == [false, false, true, false, false] && UeCode(6) == [false, false, true, true, true]
  {
    assert Pow2(0) == 1 && Pow2(1) == 2 && Pow2(2) == 4;
    CodeIs(0, 0);
    CodeIs(1, 1);
    CodeIs(2, 1);
    CodeIs(3, 2);
    CodeIs(6, 2);
  }

  lemma {:induction false} ZeroBits(n: nat)
    ensures ToBits(0, n) == Zeros(n)
  {
    if n > 0 {
      ZeroBits(n - 1);
    }
  }

  // ---------------------------------------------------------------- the writer

  class Writer {
    var shift: int        // free bits in the cache
    var cache: nat        // bit cache, filled from the most significant end
    var stored: seq<Byte> // the words behind `buf`

    ghost predicate Valid()
      reads this
    {
      && 0 <= shift <= 32
      && Aligned(cache, shift)
      && |stored| % 4 == 0
    }

    /** Everything written so far. */
    ghost function Written(): seq<bool>
      requires Valid()
      reads this
    {
      BitsOf(stored) + ToBits(Shr(cache, shift), 32 - shift)
    }

    constructor ()
      ensures Valid() && Written() == []
    {
      shift, cache, stored := 32, 0, [];
      new;
      ZeroShr(32);
    }

    /** h264e_bs_put_bits: the low n bits of val. Wherever the source ors into the cache
        the operands have no bit in common, so the or is an addition. */
    method PutBits(n: nat, val: nat)
      requires Valid() && n <= 31 && val < Pow2(n)
      modifies this
      ensures Valid() && Written() == old(Written()) + ToBits(val, n)
    {
      hide ToBits, Shr, BitsOf, Aligned, Shl32, Pow2;
      ghost var free, sofar, top := shift, BitsOf(stored), ToBits(Shr(cache, shift), 32 - shift);
      shift := shift - n;
      if shift < 0 {
        FillWord(cache, free, n, val);
        var word := cache + Shr(val, -shift);
        BigEndianBits(word);
        BitsOfJoin(stored, BigEndian(word));
        ghost var rest := Shl32(val, 32 + shift);
        Assoc(sofar, ToBits(word, 32), ToBits(Shr(rest, 32 + shift), -shift));
        stored := stored + BigEndian(word);
        shift := 32 + shift;
        cache := 0;
      } else {
        PlaceBits(cache, free, n, val);
      }
      Assoc(sofar, top, ToBits(val, n));
      cache := cache + Shl32(val, shift);
    }

    /** h264e_bs_get_pos_bits. */
    method GetPosBits() returns (pos: nat)
      requires Valid()
      ensures pos == |Written()|
    {
      pos := |stored| / 4 * 32 + (32 - shift);
    }

    /** h264e_bs_byte_align: zeros up to the next byte boundary. */
    method ByteAlign() returns (pos: nat)
      requires Valid()
      modifies this
      ensures Valid() && Written() == old(Written()) + Padding(|old(Written())|)
      ensures pos == |Written()|
    {
      pos := GetPosBits();
      var n := if pos % 8 == 0 then 0 else 8 - pos % 8;
      ZeroBits(n);
      PutBits(n, 0);
      pos := pos + n;
    }

    /** h264e_bs_flush: stores the cached word behind the others without consuming it. */
    method Flush() returns (buffer: seq<Byte>)
      requires Valid()
      ensures BitsOf(buffer) == Written() + Zeros(shift)
    {
      hide ToBits, Shr, Pow2;
      ghost var a := Shr(cache, shift);
      Pow2Word();
      ToBitsJoin(a, 32 - shift, 0, shift);
      ZeroBits(shift);
      BigEndianBits(cache);
      BitsOfJoin(stored, BigEndian(cache));
      buffer := stored + BigEndian(cache);
      assert BitsOf(stored) + (ToBits(a, 32 - shift) + Zeros(shift)) == Written() + Zeros(shift);
    }

    /** h264e_bs_put_golomb. */
    method PutGolomb(val: nat)
      requires Valid() && val <= 65534
      modifies this
      ensures Valid() && Written() == old(Written()) + UeCode(val)
    {
      hide Shr;
      var size, t := 0, val + 1;
      while true
        invariant t > 0 && Size(val + 1) == size + Size(t)
        decreases t
      {
        size, t := size + 1, t / 2;
        if t == 0 { break; }
      }
      GolombFits(val);
      PutBits(2 * size - 1, val + 1);
    }
  }

  /** The zeros that align a string of n bits. */
  function Padding(n: nat): (z: seq<bool>)
    ensures |z| < 8 && (n + |z|) % 8 == 0
  {
    Zeros(if n % 8 == 0 then 0 else 8 - n % 8)
  }

  // The code of val is the number val + 1 in 2 * size - 1 bits.
  lemma GolombFits(val: nat)
    requires val <= 65534
    ensures var n := Size(val + 1);
            1 <= n <= 16 && val + 1 < Pow2(2 * n - 1) && ToBits(val + 1, 2 * n - 1) == UeCode(val)
  {
    hide ToBits, Size, Pow2;
    var n := Size(val + 1);
    SizeBound(val + 1);
    Pow2Half();
    if n > 16 {
      Pow2Mono(16, n - 1);
    }
    Pow2Mono(n, 2 * n - 1);
    ToBitsJoin(0, n - 1, val + 1, n);
    ZeroBits(n - 1);
  }

  /** The first bytes of a flushed, byte-aligned stream are exactly the stream. */
  lemma FlushedBytes(buffer: seq<Byte>, written: seq<bool>, z: nat)
    requires BitsOf(buffer) == written + Zeros(z) && |written| % 8 == 0
    ensures |written| / 8 <= |buffer| && BitsOf(buffer[..|written| / 8]) == written
  {
    hide BitsOf;
    var n := |written| / 8;
    BitsOfJoin(buffer[..n], buffer[n..]);
    assert buffer[..n] + buffer[n..] == buffer;
    assert BitsOf(buffer)[..8 * n] == written;
  }

  lemma {:induction false} ZeroShr(k: nat)
    ensures Shr(0, k) == 0
  {
    if k > 0 {
      ZeroShr(k - 1);
    }
  }

  lemma MulAssoc(a: nat, b: nat, c: nat)
    ensures a * b * c == a * (b * c)
  {}

  lemma MulMono(a: nat, b: nat, c: nat)
    requires a <= b
    ensures a * c <= b * c
  {}

  lemma MulLess(a: nat, b: nat, c: nat)
    requires a < b && c > 0
    ensures a * c < b * c
  {
    MulMono(a + 1, b, c);
    assert (a + 1) * c == a * c + c;
  }

  // v << s keeps a value of at most 32 - s bits whole.
  lemma ShlSmall(v: nat, n: nat, s: nat)
    requires v < Pow2(n) && n + s <= 32
    ensures Shl32(v, s) == v * Pow2(s) < Pow2(n + s)
  {
    hide Pow2;
    Pow2Word();
    Pow2Add(n, s);
    Pow2Mono(n + s, 32);
    MulLess(v, Pow2(n), Pow2(s));
    SmallMod(v * Pow2(s), WORD);
  }

  lemma SmallMod(v: nat, m: nat)
    requires v < m
    ensures v % m == v
  {}

  lemma JoinBound(a: nat, m: nat, b: nat, n: nat)
    requires a < Pow2(m) && b < Pow2(n)
    ensures a * Pow2(n) + b < Pow2(m + n)
  {
    hide Pow2;
    Pow2Add(m, n);
    MulMono(a + 1, Pow2(m), Pow2(n));
    assert (a + 1) * Pow2(n) == a * Pow2(n) + Pow2(n);
  }

  // A value placed below cached bits a, all of them above s free bits.
  lemma Placed(a: nat, m: nat, val: nat, n: nat, s: nat)
    requires a < Pow2(m) && val < Pow2(n) && m + n + s == 32
    ensures var c := a * Pow2(n + s) + Shl32(val, s);
            && Aligned(c, s) && ToBits(Shr(c, s), m + n) == ToBits(a, m) + ToBits(val, n)
  {
    hide Pow2, ToBits, Shr, Shl32;
    var v := a * Pow2(n) + val;
    JoinBound(a, m, val, n);
    ShlSmall(val, n, s);
    ShlSmall(v, m + n, s);
    Pow2Word();
    Pow2Add(n, s);
    MulAssoc(a, Pow2(n), Pow2(s));
    Distribute(a * Pow2(n), val, Pow2(s));
    assert v * Pow2(s) == a * Pow2(n + s) + Shl32(val, s);
    ShrJoin(v, 0, s);
    ToBitsJoin(a, m, val, n);
  }

  lemma Distribute(a: nat, b: nat, c: nat)
    ensures (a + b) * c == a * c + b * c
  {}

  lemma AlignedTop(cache: nat, free: nat)
    requires Aligned(cache, free) && free <= 32
    ensures Shr(cache, free) < Pow2(32 - free)
  {
    var a := Shr(cache, free);
    Pow2Word();
    Pow2Add(32 - free, free);
    if a >= Pow2(32 - free) {
      MulMono(Pow2(32 - free), a, Pow2(free));
    }
  }

  // A value that fits below the cached bits.
  lemma PlaceBits(cache: nat, free: nat, n: nat, val: nat)
    requires n <= free <= 32 && val < Pow2(n) && Aligned(cache, free)
    ensures var s := free - n;
            var c := cache + Shl32(val, s);
            && Aligned(c, s) && ToBits(Shr(c, s), 32 - s) == ToBits(Shr(cache, free), 32 - free) + ToBits(val, n)
  {
    hide Pow2, ToBits, Shl32;
    AlignedTop(cache, free);
    Placed(Shr(cache, free), 32 - free, val, n, free - n);
  }

  // v << s in 32 bits loses the bits of v above the 32 - s low ones.
  lemma ShlDrop(hi: nat, low: nat, k: nat)
    requires low < Pow2(k) && k <= 32
    ensures Shl32(hi * Pow2(k) + low, 32 - k) == Shl32(low, 32 - k)
  {
    hide Pow2;
    var p, q := Pow2(k), Pow2(32 - k);
    Pow2Word();
    Pow2Add(k, 32 - k);
    MulAssoc(hi, p, q);
    assert (hi * p + low) * q == hi * WORD + low * q;
    ModDrop(hi, low * q);
  }

  lemma ModDrop(a: nat, b: nat)
    ensures (a * WORD + b) % WORD == b % WORD
  {}

  // A value that fills the cached word up and leaves k bits for the next one.
  lemma FillWord(cache: nat, free: nat, n: nat, val: nat)
    requires free < n <= 31 && val < Pow2(n) && Aligned(cache, free)
    ensures var k := n - free;
            var w := cache + Shr(val, k);
            var c := Shl32(val, 32 - k);
            && w < WORD && Aligned(c, 32 - k)
            && ToBits(w, 32) + ToBits(Shr(c, 32 - k), k) == ToBits(Shr(cache, free), 32 - free) + ToBits(val, n)
  {
    hide Pow2, ToBits, Shl32;
    var k := n - free;
    var hi := Shr(val, k);
    var low := ShrParts(val, k);
    assert hi < Pow2(free) by {
      Pow2Add(free, k);
      if hi >= Pow2(free) {
        MulMono(Pow2(free), hi, Pow2(k));
      }
    }
    AlignedTop(cache, free);
    var a := Shr(cache, free);
    JoinBound(a, 32 - free, hi, free);
    Pow2Word();
    ToBitsJoin(a, 32 - free, hi, free);
    ShlDrop(hi, low, k);
    Placed(0, 0, low, k, 32 - k);
    ToBitsSplit(val, free, k);
    ToBitsMod(hi, low, k);
    assert ToBits(a, 32 - free) + (ToBits(hi, free) + ToBits(val, k))
        == ToBits(a, 32 - free) + ToBits(hi, free) + ToBits(val, k);
  }
}
