/** Bit strings, most significant bit first, and the numbers they stand for. */
module Bits {
  import opened Seqs

  type Byte = b: int | 0 <= b < 256

  const WORD := 0x1_0000_0000

  function ZeroBytes(n: nat): (s: seq<Byte>)
    ensures |s| == n
  {
    seq(n, _ => 0)
  }

  function Pow2(n: nat): (r: nat)
    ensures r >= 1
  {
    if n == 0 then 1 else 2 * Pow2(n - 1)
  }

  /** The n low bits of v. */
  function ToBits(v: nat, n: nat): (b: seq<bool>)
    ensures |b| == n
  {
    if n == 0 then [] else ToBits(v / 2, n - 1) + [v % 2 == 1]
  }

  function FromBits(b: seq<bool>): (v: nat)
    ensures v < Pow2(|b|)
  {
    if b == [] then 0 else 2 * FromBits(b[..|b| - 1]) + (if b[|b| - 1] then 1 else 0)
  }

  lemma {:induction false} Pow2Add(a: nat, b: nat)
    ensures Pow2(a + b) == Pow2(a) * Pow2(b)
  {
    if b > 0 {
      Pow2Add(a, b - 1);
      assert Pow2(a + b) == 2 * Pow2(a + (b - 1));
      assert Pow2(a) * Pow2(b) == 2 * (Pow2(a) * Pow2(b - 1));
    }
  }

  lemma {:induction false} Pow2Mono(a: nat, b: nat)
    requires a <= b
    ensures Pow2(a) <= Pow2(b)
  {
    if a < b {
      Pow2Mono(a, b - 1);
    }
  }

  lemma {:induction false} FromToBits(v: nat, n: nat)
    requires v < Pow2(n)
    ensures FromBits(ToBits(v, n)) == v
  {
    if n > 0 {
      FromToBits(v / 2, n - 1);
      assert ToBits(v, n)[..n - 1] == ToBits(v / 2, n - 1);
    }
  }

  lemma {:induction false} ToFromBits(b: seq<bool>)
    ensures ToBits(FromBits(b), |b|) == b
  {
    if b != [] {
      ToFromBits(b[..|b| - 1]);
    }
  }

  /** v >> k. */
  function Shr(v: nat, k: nat): nat {
    if k == 0 then v else Shr(v / 2, k - 1)
  }

  /** A number split at bit k is the bits of its high part followed by those of its low part. */
  lemma {:induction false} ToBitsSplit(v: nat, n: nat, k: nat)
    ensures ToBits(v, n + k) == ToBits(Shr(v, k), n) + ToBits(v, k)
    decreases k
  {
    if k == 0 {
      assert ToBits(v, n) + [] == ToBits(v, n);
    } else {
      ToBitsSplit(v / 2, n, k - 1);
      assert ToBits(v / 2, n + (k - 1)) == ToBits(v, n + k)[..n + k - 1];
    }
  }

  lemma {:induction false} ShrJoin(a: nat, b: nat, k: nat)
    requires b < Pow2(k)
    ensures Shr(a * Pow2(k) + b, k) == a
  {
    if k > 0 {
      var p := Pow2(k - 1);
      assert a * Pow2(k) == 2 * (a * p);
      assert (a * Pow2(k) + b) / 2 == a * p + b / 2;
      ShrJoin(a, b / 2, k - 1);
    }
  }

  /** The high and the low part of a number split at bit k. */
  lemma {:induction false} ShrParts(v: nat, k: nat) returns (low: nat)
    ensures v == Shr(v, k) * Pow2(k) + low && low < Pow2(k)
  {
    if k == 0 {
      low := 0;
    } else {
      var l := ShrParts(v / 2, k - 1);
      low := 2 * l + v % 2;
      assert Shr(v, k) * Pow2(k) == 2 * (Shr(v, k) * Pow2(k - 1));
    }
  }

  /** Only the low bits of a number matter to its low bits. */
  lemma {:induction false} ToBitsMod(a: nat, b: nat, k: nat)
    ensures ToBits(a * Pow2(k) + b, k) == ToBits(b, k)
  {
    if k > 0 {
      var p := Pow2(k - 1);
      assert a * Pow2(k) + b == 2 * (a * p) + b;
      assert (a * Pow2(k) + b) / 2 == a * p + b / 2;
      ToBitsMod(a, b / 2, k - 1);
    }
  }

  /** Appending k bits of b below the n bits of a. */
  lemma ToBitsJoin(a: nat, n: nat, b: nat, k: nat)
    requires b < Pow2(k)
    ensures ToBits(a * Pow2(k) + b, n + k) == ToBits(a, n) + ToBits(b, k)
  {
    ToBitsSplit(a * Pow2(k) + b, n, k);
    ToBitsMod(a, b, k);
    ShrJoin(a, b, k);
  }

  lemma MulDouble(a: nat, q: nat, p: nat)
    requires q == 2 * p
    ensures a * q == 2 * (a * p)
  {}

  lemma FromBitsStep(b: seq<bool>)
    requires b != []
    ensures FromBits(b) == 2 * FromBits(b[..|b| - 1]) + (if b[|b| - 1] then 1 else 0)
    ensures Pow2(|b|) == 2 * Pow2(|b| - 1)
  {}

  lemma FromBitsEmpty()
    ensures FromBits([]) == 0 && Pow2(0) == 1
  {}

  lemma {:induction false} FromBitsJoin(x: seq<bool>, y: seq<bool>)
    ensures FromBits(x + y) == FromBits(x) * Pow2(|y|) + FromBits(y)
  {
    FromBitsEmpty();
    hide FromBits, Pow2;
    if y == [] {
      assert x + y == x;
    } else {
      var y' := y[..|y| - 1];
      assert (x + y)[..|x + y| - 1] == x + y';
      FromBitsJoin(x, y');
      FromBitsStep(y);
      MulDouble(FromBits(x), Pow2(|y|), Pow2(|y'|));
      FromBitsStep(x + y);
    }
  }

  /** The bits of a byte string. */
  function BitsOf(s: seq<Byte>): (b: seq<bool>)
    ensures |b| == 8 * |s|
  {
    if s == [] then [] else BitsOf(s[..|s| - 1]) + ToBits(s[|s| - 1], 8)
  }

  lemma BitsOfStep(s: seq<Byte>)
    ensures s == [] ==> BitsOf(s) == []
    ensures s != [] ==> BitsOf(s) == BitsOf(s[..|s| - 1]) + ToBits(s[|s| - 1], 8)
  {}

  lemma {:induction false} BitsOfJoin(s: seq<Byte>, t: seq<Byte>)
    ensures BitsOf(s + t) == BitsOf(s) + BitsOf(t)
  {
    hide BitsOf, ToBits;
    BitsOfStep(t);
    if t == [] {
      NothingBehind(s);
      NothingBehind(BitsOf(s));
    } else {
      var t' := t[..|t| - 1];
      BitsOfStep(s + t);
      assert (s + t)[..|s + t| - 1] == s + t';
      BitsOfJoin(s, t');
      Assoc(BitsOf(s), BitsOf(t'), ToBits(t[|t| - 1], 8));
    }
  }

  /** A stretch of whole bytes. */
  lemma BitsOfSlice(s: seq<Byte>, i: nat, j: nat)
    requires i <= j <= |s|
    ensures BitsOf(s)[8 * i..8 * j] == BitsOf(s[i..j])
  {
    hide BitsOf;
    ThreeParts(s, i, j);
    BitsOfMiddle(s[..i], s[i..j], s[j..], s, 8 * i, 8 * j);
  }

  lemma BitsOfMiddle(a: seq<Byte>, b: seq<Byte>, c: seq<Byte>, s: seq<Byte>, x: nat, y: nat)
    requires s == a + (b + c) && x == 8 * |a| && y == x + 8 * |b|
    ensures BitsOf(s)[x..y] == BitsOf(b)
  {
    hide BitsOf;
    BitsOfJoin(a, b + c);
    BitsOfJoin(b, c);
    Middle(BitsOf(a), BitsOf(b), BitsOf(c));
  }

  lemma {:induction false} BitsOfInjective(s: seq<Byte>, t: seq<Byte>)
    requires BitsOf(s) == BitsOf(t)
    ensures s == t
  {
    if s == [] || t == [] {
    } else {
      var n := |s| - 1;
      assert BitsOf(s)[..8 * n] == BitsOf(s[..n]) && BitsOf(t)[..8 * n] == BitsOf(t[..n]);
      assert BitsOf(s)[8 * n..] == ToBits(s[n], 8) && BitsOf(t)[8 * n..] == ToBits(t[n], 8);
      BitsOfInjective(s[..n], t[..n]);
      FromToBits(s[n], 8);
      FromToBits(t[n], 8);
      assert s == s[..n] + [s[n]] && t == t[..n] + [t[n]];
    }
  }

  /** Bit p of a byte string is a bit of its byte p / 8. */
  lemma {:induction false} BitOfByte(s: seq<Byte>, p: nat)
    requires p < 8 * |s|
    ensures BitsOf(s)[p] == ToBits(s[p / 8], 8)[p % 8]
  {
    if p < 8 * (|s| - 1) {
      BitOfByte(s[..|s| - 1], p);
    }
  }

  /** The bits of a byte, the one worth 128 first. */
  lemma ByteBits(b: Byte)
    ensures ToBits(b, 8) == [b / 128 == 1, b / 64 % 2 == 1, b / 32 % 2 == 1, b / 16 % 2 == 1,
                             b / 8 % 2 == 1, b / 4 % 2 == 1, b / 2 % 2 == 1, b % 2 == 1]
  {
    hide ToBits;
    var x: nat := b;
    FourBits(x, 4);
    FourBits(x / 16, 0);
    NoBits(x / 256);
    assert x / 16 / 16 == x / 256 && x / 16 / 2 == x / 32 && x / 16 / 4 == x / 64 && x / 16 / 8 == x / 128;
  }

  lemma FourBits(x: nat, n: nat)
    ensures ToBits(x, n + 4)
         == ToBits(x / 16, n) + [x / 8 % 2 == 1, x / 4 % 2 == 1, x / 2 % 2 == 1, x % 2 == 1]
  {
    hide ToBits;
    HighBits(x, n + 4);
    HighBits(x / 2, n + 3);
    HighBits(x / 4, n + 2);
    HighBits(x / 8, n + 1);
    assert x / 2 / 2 == x / 4 && x / 4 / 2 == x / 8 && x / 8 / 2 == x / 16;
  }

  lemma HighBits(v: nat, n: nat)
    requires n > 0
    ensures ToBits(v, n) == ToBits(v / 2, n - 1) + [v % 2 == 1]
  {}

  lemma NoBits(v: nat)
    ensures ToBits(v, 0) == []
  {}

  function Zeros(n: nat): (b: seq<bool>)
    ensures |b| == n
  {
    seq(n, _ => false)
  }
}
