/** What the tables, the round constants and the rounds of crypto/aes.h are in the field
    GF(2^8) of section 4.2 of FIPS 197, where a byte stands for a polynomial of degree below
    8 over GF(2), the products being taken modulo x^8 + x^4 + x^3 + x + 1. */
module AesField {
  import opened AesTables
  import opened Aes
  import opened AesKeys

  /** The product of x and b: every exponent goes up by one, and x^8 is replaced by
      x^4 + x^3 + x + 1, which is congruent to it. */
  function X(b: bv8): bv8 {
    if b & 0x80 == 0 then b << 1 else (b << 1) ^ 0x1b
  }

  /** The product of a and b: the sum of the products of a with each power of x in b. */
  function Mul(a: bv8, b: bv8): bv8 {
    Part(a, b & 1) ^ Part(X(a), b & 2) ^ Part(X(X(a)), b & 4) ^ Part(X(X(X(a))), b & 8)
    ^ Part(X(X(X(X(a)))), b & 16) ^ Part(X(X(X(X(X(a))))), b & 32)
    ^ Part(X(X(X(X(X(X(a)))))), b & 64) ^ Part(X(X(X(X(X(X(X(a))))))), b & 128)
  }

  function Part(a: bv8, coefficient: bv8): bv8 {
    if coefficient == 0 then 0 else a
  }

  /** b with its bits moved n places to the left, around the end. */
  function Turn(b: bv8, n: bv4): bv8
    requires 0 < n < 8
  {
    (b << n) | (b >> (8 - n))
  }

  /** The affine map of section 5.1.1 of FIPS 197: bit i of the result is the sum of the
      bits i, i + 4, i + 5, i + 6 and i + 7 of b, modulo 8, and of bit i of 0x63. */
  function Affine(b: bv8): bv8 {
    b ^ Turn(b, 1) ^ Turn(b, 2) ^ Turn(b, 3) ^ Turn(b, 4) ^ 0x63
  }

  lemma XtimeIs(b: bv8)
    ensures Xtime(b) == X(b)
  {}

  /** The multiples that the columns of the two MixColumns matrices consist of. */
  lemma Multiples(b: bv8)
    ensures Xtime(b) == Mul(b, 2) && Mul3(b) == Mul(b, 3) && Mul9(b) == Mul(b, 9)
    ensures Mul11(b) == Mul(b, 11) && Mul13(b) == Mul(b, 13) && Mul14(b) == Mul(b, 14)
  {
    hide Mul, X, Xtime, Mul3, Mul9, Mul11, Mul13, Mul14;
    XtimeIs(b);
    SmallProducts(b);
    OddProducts(b);
    LargeProducts(b);
  }

  lemma SmallProducts(b: bv8)
    ensures Mul(b, 2) == X(b) && Mul(b, 3) == Mul3(b)
  {
    hide X, Xtime;
    XtimeIs(b);
  }

  lemma OddProducts(b: bv8)
    ensures Mul(b, 9) == Mul9(b) && Mul(b, 11) == Mul11(b)
  {
    hide X, Xtime;
    XtimeIs(b);
    XtimeIs(X(b));
    XtimeIs(X(X(b)));
  }

  lemma LargeProducts(b: bv8)
    ensures Mul(b, 13) == Mul13(b) && Mul(b, 14) == Mul14(b)
  {
    hide X, Xtime, Mul, Add;
    XtimeIs(b);
    XtimeIs(X(b));
    XtimeIs(X(X(b)));
    Product13(b);
    Product14(b);
  }

  lemma Product13(b: bv8)
    ensures Mul(b, 13) == Add(Add(X(X(X(b))), b), X(X(b)))
  {
    hide X;
  }

  lemma Product14(b: bv8)
    ensures Mul(b, 14) == Add(Add(X(X(X(b))), X(X(b))), X(b))
  {
    hide X;
  }

  /** A byte of the S-box is the affine image of the inverse of its index, 0 standing for
      the inverse of 0. */
  lemma SBoxIs(x: bv8) returns (y: bv8)
    ensures if x == 0 then y == 0 else Mul(x, y) == 1
    ensures SBox(x) == Affine(y)
  {
    hide Mul, Affine, Straight, SBox;
    y := Straight(SBox(x));
    AffineBack(SBox(x));
    InverseIs(x);
  }

  /** The affine map undone. */
  function Straight(s: bv8): bv8 {
    Turn(s, 1) ^ Turn(s, 3) ^ Turn(s, 6) ^ 0x05
  }

  lemma AffineBack(s: bv8)
    ensures Affine(Straight(s)) == s
  {}

  lemma InverseIs(x: bv8)
    ensures if x == 0 then Straight(SBox(x)) == 0 else Mul(x, Straight(SBox(x))) == 1
  {
    hide Mul, Straight, SBox;
    if x & 0x80 == 0 {
      LowInverse(x);
    } else {
      HighInverse(x);
    }
  }

  lemma LowInverse(x: bv8)
    requires x & 0x80 == 0
    ensures if x == 0 then Straight(SBox(x)) == 0 else Mul(x, Straight(SBox(x))) == 1
  {}

  lemma HighInverse(x: bv8)
    requires x & 0x80 != 0
    ensures x != 0 && Mul(x, Straight(SBox(x))) == 1
  {}

  /** The round constants are the powers of x. */
  lemma RconIs(i: nat)
    requires i < 10
    ensures Rcon(0) == Word(1, 0, 0, 0)
    ensures i > 0 ==> Rcon(i) == Word(X(Rcon(i - 1).b3), 0, 0, 0)
  {}

  // ---------------------------------------------------------------- rounds on bytes

  function Sum(a: bv8, b: bv8, c: bv8, d: bv8): bv8 { a ^ b ^ c ^ d }

  lemma SumIs(a: bv8, b: bv8, c: bv8, d: bv8)
    ensures Add(Add(Add(a, b), c), d) == Sum(a, b, c, d)
  {}

  lemma WordSums(p: Word, q: Word, r: Word, s: Word)
    ensures Sum4(p, q, r, s) == Word(Sum(p.b3, q.b3, r.b3, s.b3), Sum(p.b2, q.b2, r.b2, s.b2),
                                     Sum(p.b1, q.b1, r.b1, s.b1), Sum(p.b0, q.b0, r.b0, s.b0))
  {
    hide Add, Sum;
    SumIs(p.b3, q.b3, r.b3, s.b3);
    SumIs(p.b2, q.b2, r.b2, s.b2);
    SumIs(p.b1, q.b1, r.b1, s.b1);
    SumIs(p.b0, q.b0, r.b0, s.b0);
  }

  /** A column of MixColumns, section 5.1.3 of FIPS 197, and one of InvMixColumns, section
      5.3.3, as products of matrices. */
  lemma MixIs(a: bv8, b: bv8, c: bv8, d: bv8)
    ensures Mix(Word(a, b, c, d)) == Word(Sum(Mul(a, 2), Mul(b, 3), c, d), Sum(a, Mul(b, 2), Mul(c, 3), d),
                                          Sum(a, b, Mul(c, 2), Mul(d, 3)), Sum(Mul(a, 3), b, c, Mul(d, 2)))
  {
    hide Mul, Mul3, Xtime, Sum, Sum4;
    Multiples(a);
    Multiples(b);
    Multiples(c);
    Multiples(d);
    WordSums(Mix0(a), Mix1(b), Mix2(c), Mix3(d));
  }

  lemma UnmixIs(a: bv8, b: bv8, c: bv8, d: bv8)
    ensures Unmix(Word(a, b, c, d))
            == Word(Sum(Mul(a, 14), Mul(b, 11), Mul(c, 13), Mul(d, 9)),
                    Sum(Mul(a, 9), Mul(b, 14), Mul(c, 11), Mul(d, 13)),
                    Sum(Mul(a, 13), Mul(b, 9), Mul(c, 14), Mul(d, 11)),
                    Sum(Mul(a, 11), Mul(b, 13), Mul(c, 9), Mul(d, 14)))
  {
    hide Mul, Mul9, Mul11, Mul13, Mul14, Sum, Sum4;
    Multiples(a);
    Multiples(b);
    Multiples(c);
    Multiples(d);
    WordSums(Unmix0(a), Unmix1(b), Unmix2(c), Unmix3(d));
  }

  /** Row r of column c of a state, section 3.4 of FIPS 197. */
  function At(s: Block, r: nat, c: nat): bv8
    requires r < 4 && c < 4
  {
    var w := if c == 0 then s.s0 else if c == 1 then s.s1 else if c == 2 then s.s2 else s.s3;
    if r == 0 then w.b3 else if r == 1 then w.b2 else if r == 2 then w.b1 else w.b0
  }

  /** SubBytes and ShiftRows, sections 5.1.1 and 5.1.2, and their inverses, sections 5.3.1 and
      5.3.2: row r moves r places to the left, and back. */
  lemma ShiftIs(s: Block, r: nat, c: nat)
    requires r < 4 && c < 4
    ensures At(SubShift(s), r, c) == SBox(At(s, r, (c + r) % 4))
    ensures At(InvSubShift(s), r, (c + r) % 4) == InvSBox(At(s, r, c))
  {
    hide SBox, InvSBox;
  }

  /** Byte r + 4 c of a block of bytes is row r of column c of the state. */
  lemma BytesAt(p: seq<bv8>, r: nat, c: nat)
    requires |p| == 16 && r < 4 && c < 4
    ensures At(ToBlock(p), r, c) == p[r + 4 * c] && FromBlock(ToBlock(p)) == p
  {
    hide FromBlock;
    BytesBlock(p);
    var w := if c == 0 then GetU32(p, 0) else if c == 1 then GetU32(p, 4) else if c == 2 then GetU32(p, 8)
             else GetU32(p, 12);
    assert w == Word(p[4 * c], p[4 * c + 1], p[4 * c + 2], p[4 * c + 3]);
  }
}
