/** The incremental hash of crypto/md5.h. The compression function (section 3.4 of RFC 1321)
    is a parameter; what is proved is that feeding a message in pieces computes the same as
    padding it whole and folding the compression function over its blocks. */
module Md5 {
  import opened Seqs
  import opened Bits

  type Word = w: int | 0 <= w < WORD

  /** The four words of the digest buffer. */
  datatype Digest = Digest(a: Word, b: Word, c: Word, d: Word)

  /** Section 3.3 of RFC 1321. */
  const INITIAL := Digest(0x6745_2301, 0xefcd_ab89, 0x98ba_dcfe, 0x1032_5476)

  type Compression = (Digest, seq<Byte>) -> Digest

  // ---------------------------------------------------------------- the hash of a whole message

  /** The compression function over the whole blocks of s. */
  function Fold(f: Compression, s: seq<Byte>): Digest
    requires |s| % 64 == 0
  {
    if s == [] then INITIAL else f(Fold(f, s[..|s| - 64]), s[|s| - 64..])
  }

  /** Section 3.1 of RFC 1321: at least one byte, so that eight are left in the last block. */
  function PadLength(n: nat): (p: nat)
    ensures 1 <= p <= 64 && (n + p) % 64 == 56
  {
    if n % 64 < 56 then 56 - n % 64 else 120 - n % 64
  }

  function Pad(n: nat): (s: seq<Byte>)
    requires n >= 1
    ensures |s| == n
  {
    [0x80] + ZeroBytes(n - 1)
  }

  /** The number in n bytes, lowest first. */
  function LittleEndian(x: nat, n: nat): (s: seq<Byte>)
    ensures |s| == n
  {
    if n == 0 then [] else [x % 256] + LittleEndian(x / 256, n - 1)
  }

  /** Sections 3.1 and 3.2 of RFC 1321: the message, a one bit, zeros, and its length in bits
      as a 64-bit number. */
  function Padded(m: seq<Byte>): (s: seq<Byte>)
    ensures |s| % 64 == 0
  {
    PadTotal(|m|);
    m + Pad(PadLength(|m|)) + LittleEndian(8 * |m| % (WORD * WORD), 8)
  }

  lemma PadTotal(n: nat)
    ensures (n + PadLength(n) + 8) % 64 == 0
  {
    hide PadLength;
    var t := n + PadLength(n);
    assert t == t / 64 * 64 + 56;
    assert t + 8 == (t / 64 + 1) * 64;
  }

  /** Section 3.5 of RFC 1321. */
  function Bytes(d: Digest): seq<Byte> {
    LittleEndian(d.a, 4) + LittleEndian(d.b, 4) + LittleEndian(d.c, 4) + LittleEndian(d.d, 4)
  }

  function Hash(f: Compression, m: seq<Byte>): seq<Byte> {
    Bytes(Fold(f, Padded(m)))
  }

  /** The words of the digest, each with its lowest byte first. */
  lemma BytesAre(d: Digest)
    ensures |Bytes(d)| == 16
    ensures Bytes(d)[0..4] == [d.a % 256, d.a / 0x100 % 256, d.a / 0x1_0000 % 256, d.a / 0x100_0000]
    ensures Bytes(d)[4..8] == [d.b % 256, d.b / 0x100 % 256, d.b / 0x1_0000 % 256, d.b / 0x100_0000]
    ensures Bytes(d)[8..12] == [d.c % 256, d.c / 0x100 % 256, d.c / 0x1_0000 % 256, d.c / 0x100_0000]
    ensures Bytes(d)[12..16] == [d.d % 256, d.d / 0x100 % 256, d.d / 0x1_0000 % 256, d.d / 0x100_0000]
  {
    hide LittleEndian;
    FourBytes(d.a);
    FourBytes(d.b);
    FourBytes(d.c);
    FourBytes(d.d);
    var a, b, c, e := LittleEndian(d.a, 4), LittleEndian(d.b, 4), LittleEndian(d.c, 4), LittleEndian(d.d, 4);
    assert (a + b + c + e)[0..4] == a && (a + b + c + e)[4..8] == b;
    assert (a + b + c + e)[8..12] == c && (a + b + c + e)[12..16] == e;
  }

  /** The bytes that section 3.3 of RFC 1321 gives for the words that the digest begins with. */
  lemma InitialIs()
    ensures Bytes(INITIAL) == [0x01, 0x23, 0x45, 0x67, 0x89, 0xab, 0xcd, 0xef,
                               0xfe, 0xdc, 0xba, 0x98, 0x76, 0x54, 0x32, 0x10]
  {
    hide Bytes;
    BytesAre(INITIAL);
    var s := Bytes(INITIAL);
    assert s == s[0..4] + s[4..8] + s[8..12] + s[12..16];
  }

  lemma FourBytes(x: Word)
    ensures LittleEndian(x, 4) == [x % 256, x / 0x100 % 256, x / 0x1_0000 % 256, x / 0x100_0000]
  {
    var y, z := x as nat / 256, x as nat / 0x1_0000;
    assert y / 256 == z && z / 256 == x / 0x100_0000 < 256;
    LittleStep(x, 4);
    LittleStep(y, 3);
    LittleStep(z, 2);
    LittleStep(z / 256, 1);
    LittleNone(z / 256 / 256);
  }

  /** What is hashed: the message, 0x80, fewer than 64 zeros, and the length in bits, mod 2^64,
      lowest byte first, so that blocks of 64 bytes are filled. */
  lemma PaddedIs(m: seq<Byte>, k: nat)
    ensures var s := Padded(m);
            && |s| % 64 == 0 && |m| + 9 <= |s| <= |m| + 72
            && s[..|m|] == m && s[|m|] == 0x80
            && (|m| < k < |s| - 8 ==> s[k] == 0)
            && (k < 8 ==> s[|s| - 8 + k] == 8 * |m| / Power(k) % 256)
  {
    hide LittleEndian;
    var n, p := |m|, PadLength(|m|);
    var pad, count := Pad(p), LittleEndian(8 * n % (WORD * WORD), 8);
    var s := Padded(m);
    assert s == m + pad + count && |s| == n + p + 8;
    if k < 8 {
      assert s[|s| - 8 + k] == count[k];
      LittleAt(8 * n % (WORD * WORD), 8, k);
      WideDigit(8 * n, k);
    }
  }

  /** 256 to the power of k. */
  function Power(k: nat): (p: nat)
    ensures p > 0
  {
    if k == 0 then 1 else 256 * Power(k - 1)
  }

  lemma {:induction false} LittleAt(x: nat, n: nat, k: nat)
    requires k < n
    ensures LittleEndian(x, n)[k] == x / Power(k) % 256
  {
    LittleStep(x, n);
    if k > 0 {
      LittleAt(x / 256, n - 1, k - 1);
      DivTwice(x, Power(k - 1));
    }
  }

  lemma DivTwice(x: nat, p: nat)
    requires p > 0
    ensures x / 256 / p == x / (256 * p)
  {
    var q := x / 256 / p;
    var r := x / 256 - p * q;
    assert x == 256 * (p * q + r) + x % 256 && r < p;
    assert x == q * (256 * p) + (256 * r + x % 256);
    assert 256 * r + x % 256 < 256 * p;
    UniqueMod(x, q, 256 * r + x % 256, 256 * p);
  }

  /** A digit below the 64th bit is the same without those from it on. */
  lemma WideDigit(x: nat, k: nat)
    requires k < 8
    ensures x % (WORD * WORD) / Power(k) % 256 == x / Power(k) % 256
  {
    hide Power;
    var q, r, p, rest := x / (WORD * WORD), x % (WORD * WORD), Power(k), Power(7 - k);
    PowerSplit(k);
    assert x == q * (WORD * WORD) + r;
    assert WORD * WORD == p * (256 * rest);
    DigitShift(q, r, p, rest);
  }

  lemma PowerSplit(k: nat)
    requires k < 8
    ensures Power(k) * (256 * Power(7 - k)) == WORD * WORD
  {
    PowerJoin(k, 8 - k);
    PowerIs();
  }

  lemma {:induction false} PowerJoin(j: nat, k: nat)
    ensures Power(j + k) == Power(j) * Power(k)
  {
    if j > 0 {
      PowerJoin(j - 1, k);
    }
  }

  lemma PowerIs()
    ensures Power(8) == WORD * WORD
  {
    assert Power(2) == 0x1_0000;
    assert Power(4) == WORD by { PowerJoin(2, 2); }
    PowerJoin(4, 4);
  }

  lemma DigitShift(q: nat, r: nat, p: nat, rest: nat)
    requires p > 0
    ensures (q * (p * (256 * rest)) + r) / p % 256 == r / p % 256
  {
    var d, e := r / p, r % p;
    assert q * (p * (256 * rest)) + r == (q * (256 * rest) + d) * p + e;
    Quotient(q * (256 * rest) + d, e, p);
    UniqueMod(q * (256 * rest) + d, q * rest + d / 256, d % 256, 256);
  }

  lemma Quotient(a: nat, e: nat, p: nat)
    requires e < p
    ensures (a * p + e) / p == a
  {
    var x := a * p + e;
    UniqueMod(x, a, e, p);
    assert x == x / p * p + e;
    if x / p < a {
      Mono(x / p + 1, a, p);
    } else if x / p > a {
      Mono(a + 1, x / p, p);
    }
  }

  // ---------------------------------------------------------------- the counter

  /** The bytes behind the last whole block. */
  function Tail(n: nat): (t: nat)
    ensures t < 64 && t <= n && (n - t) % 64 == 0
  {
    n % 64
  }

  ghost predicate Counts(count0: nat, count1: nat, n: nat) {
    count0 < WORD && count1 < WORD && count1 * WORD + count0 == 8 * n % (WORD * WORD)
  }

  lemma CounterTail(count0: nat, count1: nat, n: nat)
    requires Counts(count0, count1, n)
    ensures count0 / 8 % 64 == n % 64
  {
    var q := 8 * n / (WORD * WORD);
    assert 8 * n == q * (WORD * WORD) + count1 * WORD + count0;
    var k := q * WORD + count1;
    assert 8 * n == k * WORD + count0;
    assert count0 == 8 * (n - k * 0x2000_0000);
    assert count0 / 8 == n - 64 * (k * 0x80_0000);
    ModMinus(n, k * 0x80_0000);
  }

  lemma ModMinus(n: nat, k: nat)
    requires n >= 64 * k
    ensures (n - 64 * k) % 64 == n % 64
  {}

  lemma CounterAdd(count0: nat, count1: nat, n: nat, nbytes: nat)
    requires Counts(count0, count1, n)
    ensures var nbits := 8 * nbytes % WORD;
            var c0 := (count0 + nbits) % WORD;
            var c1 := (count1 + nbytes / 0x2000_0000 % WORD) % WORD;
            Counts(c0, if c0 < nbits then (c1 + 1) % WORD else c1, n + nbytes)
  {
    var hi, nbits := nbytes / 0x2000_0000, 8 * nbytes % WORD;
    ShiftParts(nbytes);
    var c0 := (count0 + nbits) % WORD;
    var carry := if c0 < nbits then 1 else 0;
    assert count0 + nbits == carry * WORD + c0;
    HighWord(count1, hi, carry);
    WideMod(n, nbytes, count0, count1, hi, nbits, carry, c0, (count1 + hi + carry) % WORD);
  }

  // nbytes << 3 and nbytes >> 29 in 32 bits are the two words of 8 * nbytes.
  lemma ShiftParts(nbytes: nat)
    ensures 8 * nbytes == nbytes / 0x2000_0000 * WORD + 8 * nbytes % WORD
  {
    var hi, r := nbytes / 0x2000_0000, nbytes % 0x2000_0000;
    assert nbytes == hi * 0x2000_0000 + r;
    assert 8 * nbytes == hi * WORD + 8 * r && 8 * r < WORD;
    UniqueMod(8 * nbytes, hi, 8 * r, WORD);
  }

  lemma HighWord(count1: nat, hi: nat, carry: nat)
    requires count1 < WORD && carry <= 1
    ensures var c1 := (count1 + hi % WORD) % WORD;
            (if carry == 1 then (c1 + 1) % WORD else c1) == (count1 + hi + carry) % WORD
  {
    var k := hi / WORD;
    assert hi == k * WORD + hi % WORD;
    var t := count1 + hi % WORD + carry;
    var u := t / WORD;
    assert t == u * WORD + t % WORD;
    assert count1 + hi + carry == (k + u) * WORD + t % WORD;
    UniqueMod(count1 + hi + carry, k + u, t % WORD, WORD);
    var c1 := (count1 + hi % WORD) % WORD;
    if carry == 1 {
      assert (c1 + 1) % WORD == t % WORD;
    }
  }

  lemma WideMod(n: nat, nbytes: nat, count0: nat, count1: nat, hi: nat, nbits: nat, carry: nat, c0: nat, r1: nat)
    requires Counts(count0, count1, n) && 8 * nbytes == hi * WORD + nbits
    requires count0 + nbits == carry * WORD + c0 && c0 < WORD && r1 == (count1 + hi + carry) % WORD
    ensures Counts(c0, r1, n + nbytes)
  {
    var q := 8 * n / (WORD * WORD);
    assert 8 * n == q * (WORD * WORD) + count1 * WORD + count0;
    var t := count1 + hi + carry;
    var u := t / WORD;
    assert t == u * WORD + r1;
    assert 8 * (n + nbytes) == (q + u) * (WORD * WORD) + (r1 * WORD + c0);
    UniqueMod(8 * (n + nbytes), q + u, r1 * WORD + c0, WORD * WORD);
  }

  lemma UniqueMod(x: nat, q: nat, r: nat, m: nat)
    requires r < m && x == q * m + r
    ensures x % m == r
  {
    if q < x / m {
      Mono(q + 1, x / m, m);
    } else if q > x / m {
      Mono(x / m + 1, q, m);
    }
  }

  lemma Mono(a: nat, b: nat, m: nat)
    requires a <= b
    ensures a * m <= b * m
  {}

  // ---------------------------------------------------------------- the incremental hash

  /** The whole blocks of a message, and what is left behind them. */
  function Whole(m: seq<Byte>): (w: seq<Byte>)
    ensures |w| % 64 == 0
  {
    m[..|m| - Tail(|m|)]
  }

  function Rest(m: seq<Byte>): (r: seq<Byte>)
    ensures |r| < 64 && Whole(m) + r == m
  {
    m[|m| - Tail(|m|)..]
  }

  /** One more block. */
  lemma FoldBlock(f: Compression, s: seq<Byte>, block: seq<Byte>)
    requires |s| % 64 == 0 && |block| == 64
    ensures |s + block| % 64 == 0 && Fold(f, s + block) == f(Fold(f, s), block)
  {
    assert (s + block)[..|s + block| - 64] == s && (s + block)[|s + block| - 64..] == block;
  }

  /** A string of whole blocks and fewer than 64 bytes are what is folded and what is kept. */
  lemma Split(w: seq<Byte>, r: seq<Byte>)
    requires |w| % 64 == 0 && |r| < 64
    ensures Whole(w + r) == w && Rest(w + r) == r
  {
    TailIs(|w|, |r|);
  }

  lemma TailOf(n: nat)
    ensures Tail(n) == n % 64
  {}

  lemma TailIs(w: nat, r: nat)
    requires w % 64 == 0 && r < 64
    ensures (w + r) % 64 == r
  {}

  class Hasher {
    const process: Compression
    var count0: nat    // message length in bits, low word
    var count1: nat
    var abcd: Digest
    const buf: array<Byte>
    ghost var message: seq<Byte>

    /** The counter is the length in bits mod 2^64, the digest words fold the whole blocks,
        and the buffer holds the rest. */
    ghost predicate Valid()
      reads this, buf
    {
      && buf.Length == 64
      && Counts(count0, count1, |message|)
      && abcd == Fold(process, Whole(message))
      && buf[..Tail(|message|)] == Rest(message)
    }

    /** md5_init. */
    constructor (f: Compression)
      ensures Valid() && fresh(buf) && message == [] && process == f
    {
      process := f;
      count0, count1 := 0, 0;
      abcd := INITIAL;
      buf := new Byte[64](_ => 0);
      message := [];
    }

    /** memcpy into the buffer. */
    method CopyToBuffer(at: nat, data: seq<Byte>)
      requires at + |data| <= buf.Length
      modifies buf
      ensures buf[..at] == old(buf[..at]) && buf[at..at + |data|] == data
    {
      for i := 0 to |data|
        invariant buf[..at] == old(buf[..at]) && buf[at..at + i] == data[..i]
      {
        buf[at + i] := data[i];
        assert buf[at..at + (i + 1)] == buf[at..at + i] + [data[i]] == data[..i + 1];
      }
      assert data[..|data|] == data;
    }

    /** The message length, in two words with a carry. */
    method AddLength(nbytes: nat, ghost n: nat)
      requires Counts(count0, count1, n)
      modifies `count0, `count1
      ensures Counts(count0, count1, n + nbytes)
    {
      hide Counts;
      CounterAdd(count0, count1, n, nbytes);
      var nbits := 8 * nbytes % WORD;
      count1 := (count1 + nbytes / 0x2000_0000 % WORD) % WORD;
      count0 := (count0 + nbits) % WORD;
      if count0 < nbits {
        count1 := (count1 + 1) % WORD;
      }
    }

    /** An initial partial block: completed and processed, or only made longer. */
    method FillBuffer(data: seq<Byte>, offset: nat, ghost w: seq<Byte>, ghost kept: seq<Byte>)
      returns (p: nat, full: bool)
      requires buf.Length == 64 && 0 < offset < 64 && offset == |kept| && buf[..offset] == kept
      requires |w| % 64 == 0 && abcd == Fold(process, w)
      modifies `abcd, buf
      ensures full == (offset + |data| >= 64)
      ensures !full ==> abcd == old(abcd) && buf[..offset + |data|] == kept + data
      ensures full ==> p == 64 - offset && abcd == Fold(process, w + (kept + data[..p]))
    {
      hide Fold;
      p := if offset + |data| > 64 then 64 - offset else |data|;
      CopyToBuffer(offset, data[..p]);
      Slices(buf[..], 0, offset, offset + p);
      assert buf[..offset + p] == buf[..offset] + buf[offset..offset + p];
      if offset + p < 64 {
        assert data[..p] == data;
        return p, false;
      }
      FoldBlock(process, w, kept + data[..p]);
      assert buf[..] == buf[..64];
      abcd := process(abcd, buf[..]);
      full := true;
    }

    /** md5_append. */
    method Append(data: seq<Byte>)
      requires Valid()
      modifies this, buf
      ensures Valid() && message == old(message) + data
    {
      hide Fold, Counts, Whole, Rest, Tail;
      CounterTail(count0, count1, |message|);
      var offset := count0 / 8 % 64;
      TailOf(|message|);
      NothingBehind(message);
      if |data| <= 0 { return; }
      ghost var kept, w := Rest(message), Whole(message);
      AddLength(|data|, |message|);
      message := message + data;
      Assoc(w, kept, data);
      var p := 0;
      if offset != 0 {
        var full;
        p, full := FillBuffer(data, offset, w, kept);
        if !full {
          Split(w, kept + data);
          SplitLength(w, kept + data);
          return;
        }
        Regroup(w, kept, data, p);
        w := w + (kept + data[..p]);
      } else {
        NothingBehind(w);
        assert data[0..] == data;
      }
      AppendRest(data, p, w);
    }

    /** Full blocks, and a final partial block. */
    method AppendRest(data: seq<Byte>, from: nat, ghost w: seq<Byte>)
      requires buf.Length == 64 && from <= |data| && |w| % 64 == 0 && abcd == Fold(process, w)
      requires message == w + data[from..]
      modifies `abcd, buf
      ensures abcd == Fold(process, Whole(message)) && buf[..Tail(|message|)] == Rest(message)
    {
      hide Fold, Whole, Rest, Tail;
      var p := AppendBlocks(data, from, w);
      var left := |data| - p;
      if left != 0 {
        CopyToBuffer(0, data[p..]);
      }
      assert buf[..left] == data[p..];
      Slices(data, from, p, |data|);
      assert data[from..] == data[from..|data|] && data[p..] == data[p..|data|];
      Assoc(w, data[from..p], data[p..]);
      Split(w + data[from..p], data[p..]);
      SplitLength(w + data[from..p], data[p..]);
    }

    /** The loop over full blocks. */
    method AppendBlocks(data: seq<Byte>, from: nat, ghost w: seq<Byte>) returns (p: nat)
      requires from <= |data| && |w| % 64 == 0 && abcd == Fold(process, w)
      modifies `abcd
      ensures from <= p <= |data| < p + 64 && (p - from) % 64 == 0
      ensures |w + data[from..p]| % 64 == 0 && abcd == Fold(process, w + data[from..p])
    {
      hide Fold;
      p := from;
      var left := |data| - p;
      NothingBehind(w);
      while left >= 64
        invariant from <= p && left == |data| - p >= 0 && (p - from) % 64 == 0
        invariant |w + data[from..p]| % 64 == 0 && abcd == Fold(process, w + data[from..p])
      {
        FoldBlock(process, w + data[from..p], data[p..p + 64]);
        Slices(data, from, p, p + 64);
        Assoc(w, data[from..p], data[p..p + 64]);
        abcd := process(abcd, data[p..p + 64]);
        p, left := p + 64, left - 64;
      }
    }

    /** md5_finish: the digest of the whole message, however it was split. */
    method Finish() returns (digest: seq<Byte>)
      requires Valid()
      modifies this, buf
      ensures digest == Hash(process, old(message))
    {
      hide Fold, Counts, Whole, Rest, LittleEndian, PadLength;
      ghost var m := message;
      CounterBytes(count0, count1, |message|);
      var data := LittleEndian(count0, 4) + LittleEndian(count1, 4);
      CounterTail(count0, count1, |message|);
      var n := (55 - count0 / 8) % 64 + 1;
      PadCount(count0 / 8, |message|);
      Append(Pad(n));
      Append(data);
      PadTotal(|m|);
      Aligned(Padded(m));
      digest := Bytes(abcd);
    }
  }

  lemma Regroup(w: seq<Byte>, kept: seq<Byte>, data: seq<Byte>, copy: nat)
    requires copy <= |data|
    ensures w + kept + data == w + (kept + data[..copy]) + data[copy..]
  {
    assert data == data[..copy] + data[copy..];
  }

  lemma SplitLength(w: seq<Byte>, r: seq<Byte>)
    requires |w| % 64 == 0 && |r| < 64
    ensures Tail(|w + r|) == |r|
  {
    TailIs(|w|, |r|);
  }

  /** The eight length bytes are those of the two counter words. */
  lemma CounterBytes(count0: nat, count1: nat, n: nat)
    requires Counts(count0, count1, n)
    ensures LittleEndian(count0, 4) + LittleEndian(count1, 4) == LittleEndian(8 * n % (WORD * WORD), 8)
  {
    LowBytes(count1 * WORD + count0, count0, count1);
  }

  function Bytes256(n: nat): (m: nat)
    ensures m > 0
  {
    if n == 0 then 1 else 256 * Bytes256(n - 1)
  }

  lemma LowBytes(x: nat, low: nat, high: nat)
    requires x == high * WORD + low && low < WORD
    ensures LittleEndian(x, 8) == LittleEndian(low, 4) + LittleEndian(high, 4)
  {
    assert Bytes256(4) == WORD;
    JoinBytes(x, low, high, 4);
  }

  lemma {:induction false} JoinBytes(x: nat, low: nat, high: nat, n: nat)
    requires x == high * Bytes256(n) + low && low < Bytes256(n)
    ensures LittleEndian(x, n + 4) == LittleEndian(low, n) + LittleEndian(high, 4)
  {
    hide LittleEndian;
    if n == 0 {
      LittleNone(low);
      NothingBehind(LittleEndian(high, 4));
    } else {
      ByteOff(x, low, high, Bytes256(n - 1));
      JoinBytes(x / 256, low / 256, high, n - 1);
      LittleStep(x, n + 4);
      LittleStep(low, n);
      Assoc([low % 256], LittleEndian(low / 256, n - 1), LittleEndian(high, 4));
    }
  }

  lemma LittleStep(x: nat, n: nat)
    requires n > 0
    ensures LittleEndian(x, n) == [x % 256] + LittleEndian(x / 256, n - 1)
  {}

  lemma LittleNone(x: nat)
    ensures LittleEndian(x, 0) == []
  {}

  lemma ByteOff(x: nat, low: nat, high: nat, m: nat)
    requires x == high * (256 * m) + low && low < 256 * m && m > 0
    ensures x % 256 == low % 256 && x / 256 == high * m + low / 256 && low / 256 < m
  {
    assert x == 256 * (high * m) + low;
  }

  lemma PadCount(bytes: nat, n: nat)
    requires bytes % 64 == n % 64
    ensures (55 - bytes) % 64 + 1 == PadLength(n)
  {
    assert bytes == bytes / 64 * 64 + n % 64;
    ModOfShift(55 - n % 64, bytes / 64);
  }

  lemma ModOfShift(x: int, k: nat)
    ensures (x - k * 64) % 64 == x % 64
  {}

  lemma Aligned(m: seq<Byte>)
    requires |m| % 64 == 0
    ensures Whole(m) == m
  {
    assert Tail(|m|) == 0;
  }

  /** The digest depends only on the bytes of the message, not on how they are handed in. */
  method HashPieces(f: Compression, pieces: seq<seq<Byte>>) returns (digest: seq<Byte>)
    ensures digest == Hash(f, Joined(pieces))
  {
    hide Joined, Hash, Hasher.Valid;
    var h := new Hasher(f);
    JoinedStep(pieces, 0);
    for k := 0 to |pieces|
      invariant h.Valid() && fresh(h) && fresh(h.buf) && h.process == f && h.message == Joined(pieces[..k])
    {
      JoinedStep(pieces, k);
      h.Append(pieces[k]);
    }
    assert pieces[..|pieces|] == pieces;
    digest := h.Finish();
  }

  function Joined(pieces: seq<seq<Byte>>): seq<Byte> {
    if pieces == [] then [] else Joined(pieces[..|pieces| - 1]) + pieces[|pieces| - 1]
  }

  lemma JoinedStep(pieces: seq<seq<Byte>>, k: nat)
    requires k <= |pieces|
    ensures k == 0 ==> Joined(pieces[..k]) == []
    ensures k < |pieces| ==> Joined(pieces[..k + 1]) == Joined(pieces[..k]) + pieces[k]
  {
    assert k < |pieces| ==> pieces[..k + 1][..k] == pieces[..k];
  }
}
