/** Key schedules and block operations of crypto/aes.h on the arrays they work on. */
module AesKeys {
  import opened AesTables
  import opened Aes

  /** Four bytes read as a big-endian word, and a block of sixteen bytes. */
  function GetU32(s: seq<bv8>, i: nat): Word
    requires i + 4 <= |s|
  {
    Word(s[i], s[i + 1], s[i + 2], s[i + 3])
  }

  function PutU32(w: Word): (s: seq<bv8>)
    ensures |s| == 4
  {
    [w.b3, w.b2, w.b1, w.b0]
  }

  function ToBlock(s: seq<bv8>): Block
    requires |s| >= 16
  {
    Block(GetU32(s, 0), GetU32(s, 4), GetU32(s, 8), GetU32(s, 12))
  }

  function FromBlock(b: Block): (s: seq<bv8>)
    ensures |s| == 16
  {
    PutU32(b.s0) + PutU32(b.s1) + PutU32(b.s2) + PutU32(b.s3)
  }

  lemma BlockBytes(b: Block)
    ensures ToBlock(FromBlock(b)) == b
  {}

  lemma BytesBlock(s: seq<bv8>)
    requires |s| == 16
    ensures FromBlock(ToBlock(s)) == s
  {}

  // ---------------------------------------------------------------- key expansion

  function Rcon(i: nat): Word
    requires i < 10
  {
    Word([0x01, 0x02, 0x04, 0x08, 0x10, 0x20, 0x40, 0x80, 0x1B, 0x36][i], 0, 0, 0)
  }

  function SubWord(w: Word): Word {
    Word(SBox(w.b3), SBox(w.b2), SBox(w.b1), SBox(w.b0))
  }

  function RotWord(w: Word): Word { Word(w.b2, w.b1, w.b0, w.b3) }

  predicate KeySize(words: nat) {
    words == 4 || words == 6 || words == 8
  }

  /** Word i of the key expansion of section 5.2 of FIPS 197, from the words of the key. */
  function Expand(key: seq<Word>, i: nat): Word
    requires KeySize(|key|) && i < 11 * |key|
  {
    if i < |key| then key[i]
    else Xor(Expand(key, i - |key|), ExpandTemp(Expand(key, i - 1), i, |key|))
  }

  function ExpandTemp(prev: Word, i: nat, nk: nat): Word
    requires nk > 0 && nk <= i < 11 * nk
  {
    if i % nk == 0 then Xor(SubWord(RotWord(prev)), Rcon(i / nk - 1))
    else if nk > 6 && i % nk == 4 then SubWord(prev)
    else prev
  }

  /** The words of a key of 4, 6 or 8 words. */
  function KeyWords(key: seq<bv8>, nk: nat): (w: seq<Word>)
    requires 4 * nk <= |key|
    ensures |w| == nk && forall i | 0 <= i < nk :: w[i] == GetU32(key, 4 * i)
  {
    seq(nk, i requires 0 <= i < nk => GetU32(key, 4 * i))
  }

  function Nk(keybits: int): nat { if keybits == 128 then 4 else if keybits == 192 then 6 else 8 }
  function Rounds(keybits: int): nat { if keybits in {128, 192, 256} then Nk(keybits) + 6 else 0 }

  /** The encryption schedule of a key. */
  function EncSchedule(key: seq<bv8>, keybits: int): (w: seq<Word>)
    requires keybits in {128, 192, 256} && |key| >= keybits / 8
    ensures |w| == 4 * (Rounds(keybits) + 1)
  {
    var w := KeyWords(key, Nk(keybits));
    seq(4 * (Rounds(keybits) + 1), i requires 0 <= i < 11 * Nk(keybits) => Expand(w, i))
  }

  // The two word substitutions of the source, with the masks written out.
  function RotSub(t: Word, rcon: Word): Word {
    Xor(Sum4(Mask3(Te4(t.b2)), Mask2(Te4(t.b1)),
             Mask1(Te4(t.b0)), Mask0(Te4(t.b3))), rcon)
  }

  function Sub(t: Word): Word {
    Sum4(Mask3(Te4(t.b3)), Mask2(Te4(t.b2)),
         Mask1(Te4(t.b1)), Mask0(Te4(t.b0)))
  }

  lemma RotSubShape(t: Word, rcon: Word)
    ensures RotSub(t, rcon) == Xor(SubWord(RotWord(t)), rcon)
    ensures Sub(t) == SubWord(t)
  {
    hide Sum4, Xor, SBox;
    Masks(SBox(t.b2), SBox(t.b1), SBox(t.b0), SBox(t.b3));
    Masks(SBox(t.b3), SBox(t.b2), SBox(t.b1), SBox(t.b0));
  }

  /** The recurrence from word n - 1 to n + 3 in the shape of FourWords. */
  ghost predicate Chain(key: seq<Word>, o: nat, nk: nat, temp: Word)
    requires KeySize(|key|) && o + nk + 3 < 11 * |key|
  {
    && Expand(key, o + nk) == Xor(Expand(key, o), temp)
    && Expand(key, o + nk + 1) == Xor(Expand(key, o + 1), Expand(key, o + nk))
    && Expand(key, o + nk + 2) == Xor(Expand(key, o + 2), Expand(key, o + nk + 1))
    && Expand(key, o + nk + 3) == Xor(Expand(key, o + 3), Expand(key, o + nk + 2))
  }

  lemma PlainNext(key: seq<Word>, i: nat)
    requires KeySize(|key|) && |key| <= i < 11 * |key|
    requires i % |key| != 0 && (|key| > 6 ==> i % |key| != 4)
    ensures Expand(key, i) == Xor(Expand(key, i - |key|), Expand(key, i - 1))
  {
    hide Xor;
  }

  lemma GroupStart(key: seq<Word>, i: nat)
    requires KeySize(|key|) && |key| <= i < 11 * |key| && i % |key| == 0
    ensures Expand(key, i) == Xor(Expand(key, i - |key|), RotSub(Expand(key, i - 1), Rcon(i / |key| - 1)))
  {
    hide Xor, SubWord, RotWord, RotSub, Rcon;
    RotSubShape(Expand(key, i - 1), Rcon(i / |key| - 1));
  }

  lemma GroupMiddle(key: seq<Word>, i: nat)
    requires |key| == 8 && 8 <= i < 88 && i % 8 == 4
    ensures Expand(key, i) == Xor(Expand(key, i - 8), Sub(Expand(key, i - 1)))
  {
    hide Xor, SubWord, RotWord, RotSub, Rcon, Sub;
    RotSubShape(Expand(key, i - 1), Expand(key, i - 1));
  }

  // The recurrence over one group of words, in the terms of the source.
  lemma Group4(key: seq<Word>, q: nat)
    requires |key| == 4 && q < 10
    ensures Chain(key, 4 * q, 4, RotSub(Expand(key, 4 * q + 3), Rcon(q)))
  {
    hide RotSub, Xor, Rcon, Expand;
    var n := 4 * q + 4;
    assert n % 4 == 0 && n / 4 == q + 1 && (n + 1) % 4 == 1 && (n + 2) % 4 == 2 && (n + 3) % 4 == 3;
    GroupStart(key, n);
    PlainNext(key, n + 1);
    PlainNext(key, n + 2);
    PlainNext(key, n + 3);
  }

  lemma Group6(key: seq<Word>, q: nat)
    requires |key| == 6 && q < 10
    ensures Chain(key, 6 * q, 6, RotSub(Expand(key, 6 * q + 5), Rcon(q)))
    ensures var n := 6 * q;
            && Expand(key, n + 10) == Xor(Expand(key, n + 4), Expand(key, n + 9))
            && Expand(key, n + 11) == Xor(Expand(key, n + 5), Expand(key, n + 10))
  {
    hide RotSub, Xor, Rcon, Expand;
    var n := 6 * q + 6;
    assert n % 6 == 0 && n / 6 == q + 1 && (n + 1) % 6 == 1 && (n + 2) % 6 == 2 && (n + 3) % 6 == 3;
    assert (n + 4) % 6 == 4 && (n + 5) % 6 == 5;
    GroupStart(key, n);
    PlainNext(key, n + 1);
    PlainNext(key, n + 2);
    PlainNext(key, n + 3);
    PlainNext(key, n + 4);
    PlainNext(key, n + 5);
  }

  lemma Group8(key: seq<Word>, q: nat)
    requires |key| == 8 && q < 10
    ensures Chain(key, 8 * q, 8, RotSub(Expand(key, 8 * q + 7), Rcon(q)))
  {
    hide RotSub, Xor, Rcon, Expand;
    var n := 8 * q + 8;
    assert n % 8 == 0 && n / 8 == q + 1 && (n + 1) % 8 == 1 && (n + 2) % 8 == 2 && (n + 3) % 8 == 3;
    GroupStart(key, n);
    PlainNext(key, n + 1);
    PlainNext(key, n + 2);
    PlainNext(key, n + 3);
  }

  lemma Group8Middle(key: seq<Word>, q: nat)
    requires |key| == 8 && q < 10
    ensures Chain(key, 8 * q + 4, 8, Sub(Expand(key, 8 * q + 11)))
  {
    hide Sub, Xor, Expand;
    var n := 8 * q + 12;
    assert n % 8 == 4 && (n + 1) % 8 == 5 && (n + 2) % 8 == 6 && (n + 3) % 8 == 7;
    GroupMiddle(key, n);
    PlainNext(key, n + 1);
    PlainNext(key, n + 2);
    PlainNext(key, n + 3);
  }

  /** Four words after word o + nk - 1: the first from temp, each later one from the one
      before it. */
  method FourWords(rk: array<Word>, o: nat, nk: nat, temp: Word)
    requires 4 <= nk && o + nk + 4 <= rk.Length
    modifies rk
    ensures forall k | 0 <= k < rk.Length && !(o + nk <= k < o + nk + 4) :: rk[k] == old(rk[k])
    ensures rk[o + nk] == Xor(rk[o], temp)
    ensures rk[o + nk + 1] == Xor(rk[o + 1], rk[o + nk])
    ensures rk[o + nk + 2] == Xor(rk[o + 2], rk[o + nk + 1])
    ensures rk[o + nk + 3] == Xor(rk[o + 3], rk[o + nk + 2])
  {
    hide Xor;
    rk[o + nk] := Xor(rk[o], temp);
    rk[o + nk + 1] := Xor(rk[o + 1], rk[o + nk]);
    rk[o + nk + 2] := Xor(rk[o + 2], rk[o + nk + 1]);
    rk[o + nk + 3] := Xor(rk[o + 3], rk[o + nk + 2]);
  }

  method FourMore(rk: array<Word>, o: nat, nk: nat, temp: Word, ghost key: seq<Word>)
    requires 4 <= nk && o + nk + 4 <= rk.Length && KeySize(|key|) && o + nk + 3 < 11 * |key|
    requires Chain(key, o, nk, temp)
    requires forall k | 0 <= k < o + nk :: rk[k] == Expand(key, k)
    modifies rk
    ensures forall k | 0 <= k < o + nk + 4 :: rk[k] == Expand(key, k)
    ensures forall k | o + nk + 4 <= k < rk.Length :: rk[k] == old(rk[k])
  {
    hide Xor, Expand;
    FourWords(rk, o, nk, temp);
  }

  /** Words n and n + 1 by the plain recurrence. */
  method TwoMore(rk: array<Word>, n: nat, nk: nat, ghost key: seq<Word>)
    requires 2 <= nk <= n && n + 1 < rk.Length && KeySize(|key|) && n + 1 < 11 * |key|
    requires Expand(key, n) == Xor(Expand(key, n - nk), Expand(key, n - 1))
    requires Expand(key, n + 1) == Xor(Expand(key, n + 1 - nk), Expand(key, n))
    requires forall k | 0 <= k < n :: rk[k] == Expand(key, k)
    modifies rk
    ensures forall k | 0 <= k < n + 2 :: rk[k] == Expand(key, k)
    ensures forall k | n + 2 <= k < rk.Length :: rk[k] == old(rk[k])
  {
    hide Xor, Expand;
    rk[n] := Xor(rk[n - nk], rk[n - 1]);
    rk[n + 1] := Xor(rk[n + 1 - nk], rk[n]);
  }

  /** aesSetupEncrypt for a 128-bit key, whose four words are in place: groups of four. */
  method Setup128(rk: array<Word>, ghost key: seq<Word>) returns (nrounds: nat)
    requires |key| == 4 && rk.Length >= 44 && forall k | 0 <= k < 4 :: rk[k] == Expand(key, k)
    modifies rk
    ensures nrounds == 10 && forall k | 0 <= k < 44 :: rk[k] == Expand(key, k)
    ensures forall k | 44 <= k < rk.Length :: rk[k] == old(rk[k])
  {
    hide RotSub, Xor, Expand, Rcon;
    var i, o := 0, 0;
    while true
      invariant 0 <= i < 10 && o == 4 * i
      invariant forall k | 0 <= k < o + 4 :: rk[k] == Expand(key, k)
      invariant forall k | o + 4 <= k < rk.Length :: rk[k] == old(rk[k])
      decreases 10 - i
    {
      var temp := rk[o + 3];
      Group4(key, i);
      FourMore(rk, o, 4, RotSub(temp, Rcon(i)), key);
      i := i + 1;
      if i == 10 { return 10; }
      o := o + 4;
    }
  }

  /** aesSetupEncrypt for a 192-bit key: groups of six, the last one cut after four. */
  method Setup192(rk: array<Word>, ghost key: seq<Word>) returns (nrounds: nat)
    requires |key| == 6 && rk.Length >= 52 && forall k | 0 <= k < 6 :: rk[k] == Expand(key, k)
    modifies rk
    ensures nrounds == 12 && forall k | 0 <= k < 52 :: rk[k] == Expand(key, k)
    ensures forall k | 52 <= k < rk.Length :: rk[k] == old(rk[k])
  {
    hide RotSub, Xor, Expand, Rcon;
    var i, o := 0, 0;
    while true
      invariant 0 <= i < 8 && o == 6 * i
      invariant forall k | 0 <= k < o + 6 :: rk[k] == Expand(key, k)
      invariant forall k | o + 6 <= k < rk.Length :: rk[k] == old(rk[k])
      decreases 8 - i
    {
      var temp := rk[o + 5];
      Group6(key, i);
      FourMore(rk, o, 6, RotSub(temp, Rcon(i)), key);
      i := i + 1;
      if i == 8 { return 12; }
      TwoMore(rk, o + 10, 6, key);
      o := o + 6;
    }
  }

  /** aesSetupEncrypt for a 256-bit key: groups of eight with a plain substitution in the
      middle, the last one cut after four. */
  method Setup256(rk: array<Word>, ghost key: seq<Word>) returns (nrounds: nat)
    requires |key| == 8 && rk.Length >= 60 && forall k | 0 <= k < 8 :: rk[k] == Expand(key, k)
    modifies rk
    ensures nrounds == 14 && forall k | 0 <= k < 60 :: rk[k] == Expand(key, k)
    ensures forall k | 60 <= k < rk.Length :: rk[k] == old(rk[k])
  {
    hide RotSub, Sub, Xor, Expand, Rcon;
    var i, o := 0, 0;
    while true
      invariant 0 <= i < 7 && o == 8 * i
      invariant forall k | 0 <= k < o + 8 :: rk[k] == Expand(key, k)
      invariant forall k | o + 8 <= k < rk.Length :: rk[k] == old(rk[k])
      decreases 7 - i
    {
      var temp := rk[o + 7];
      Group8(key, i);
      FourMore(rk, o, 8, RotSub(temp, Rcon(i)), key);
      i := i + 1;
      if i == 7 { return 14; }
      temp := rk[o + 11];
      Group8Middle(key, i - 1);
      FourMore(rk, o + 4, 8, Sub(temp), key);
      o := o + 8;
    }
  }

  /** The words that aesSetupEncrypt fills. */
  function Filled(keybits: int): (n: nat) {
    if keybits in {128, 192, 256} then 4 * (Rounds(keybits) + 1) else 8
  }

  /** Two words of the key, as they stand in it. */
  method TwoLoads(rk: array<Word>, key: seq<bv8>, n: nat)
    requires 4 * n + 8 <= |key| && n + 2 <= rk.Length
    modifies rk
    ensures rk[n] == GetU32(key, 4 * n) && rk[n + 1] == GetU32(key, 4 * n + 4)
    ensures forall k | 0 <= k < rk.Length && k != n && k != n + 1 :: rk[k] == old(rk[k])
  {
    hide GetU32;
    rk[n] := GetU32(key, 4 * n);
    rk[n + 1] := GetU32(key, 4 * n + 4);
  }

  /** aesSetupEncrypt: expands the key in place and returns the number of rounds. For a key size
      it does not know it has filled in eight words of the key and returns 0. */
  method SetupEncrypt(rk: array<Word>, key: seq<bv8>, keybits: int) returns (nrounds: nat)
    requires |key| >= 4 * Nk(keybits)
    requires rk.Length >= Filled(keybits)
    modifies rk
    ensures nrounds == Rounds(keybits)
    ensures nrounds > 0 ==> rk[..4 * (nrounds + 1)] == EncSchedule(key, keybits)
    ensures nrounds == 0 ==> rk[..8] == KeyWords(key, 8)
    ensures forall k | Filled(keybits) <= k < rk.Length :: rk[k] == old(rk[k])
  {
    hide GetU32, Expand, EncSchedule;
    ghost var w := KeyWords(key, Nk(keybits));
    TwoLoads(rk, key, 0);
    TwoLoads(rk, key, 2);
    if keybits == 128 {
      FirstWords(w);
      nrounds := Setup128(rk, w);
      ScheduleIs(rk[..44], key, keybits);
      return;
    }
    TwoLoads(rk, key, 4);
    if keybits == 192 {
      FirstWords(w);
      nrounds := Setup192(rk, w);
      ScheduleIs(rk[..52], key, keybits);
      return;
    }
    TwoLoads(rk, key, 6);
    if keybits == 256 {
      FirstWords(w);
      nrounds := Setup256(rk, w);
      ScheduleIs(rk[..60], key, keybits);
      return;
    }
    return 0;
  }

  lemma FirstWords(key: seq<Word>)
    requires KeySize(|key|)
    ensures forall k | 0 <= k < |key| :: Expand(key, k) == key[k]
  {}

  lemma ScheduleIs(rk: seq<Word>, key: seq<bv8>, keybits: int)
    requires keybits in {128, 192, 256} && |key| >= keybits / 8 && |rk| == 4 * (Rounds(keybits) + 1)
    requires var w := KeyWords(key, Nk(keybits)); forall k | 0 <= k < |rk| :: rk[k] == Expand(w, k)
    ensures rk == EncSchedule(key, keybits)
  {
    hide Expand, GetU32;
  }

  // ---------------------------------------------------------------- decryption schedule

  /** Where word k of the reversed schedule comes from. */
  function Reversed(k: nat, nrounds: nat): (j: nat)
    requires k < 4 * (nrounds + 1)
    ensures j < 4 * (nrounds + 1)
  {
    4 * (nrounds - k / 4) + k % 4
  }

  /** The decryption schedule derived from an encryption schedule. */
  function DecSchedule(ek: seq<Word>, nrounds: nat): (dk: seq<Word>)
    requires |ek| == 4 * (nrounds + 1)
    ensures |dk| == |ek|
  {
    seq(|ek|, k requires 0 <= k < |ek| =>
      if 0 < k / 4 < nrounds then Unmix(ek[Reversed(k, nrounds)]) else ek[Reversed(k, nrounds)])
  }

  lemma DecWord(ek: seq<Word>, nrounds: nat, i: nat, r: nat)
    requires |ek| == 4 * (nrounds + 1) && i <= nrounds && r < 4
    ensures DecSchedule(ek, nrounds)[4 * i + r] ==
              var w := ek[4 * (nrounds - i) + r];
              if 0 < i < nrounds then Unmix(w) else w
  {
    hide Unmix, Reversed;
    Quarter(nrounds, i, r);
  }

  lemma Quarter(nrounds: nat, i: nat, r: nat)
    requires i <= nrounds && r < 4
    ensures (4 * i + r) / 4 == i && Reversed(4 * i + r, nrounds) == 4 * (nrounds - i) + r
  {}

  /** That schedule is the one under which decryption undoes encryption. */
  lemma DecScheduleInverts(ek: seq<Word>, nrounds: nat)
    requires |ek| == 4 * (nrounds + 1)
    ensures Inverts(DecSchedule(ek, nrounds), ek, nrounds)
  {
    hide Unmix, DecSchedule;
    var dk := DecSchedule(ek, nrounds);
    forall i: nat | i <= nrounds
      ensures Key(dk, i) == if 0 < i < nrounds then UnmixBlock(Key(ek, nrounds - i)) else Key(ek, nrounds - i)
    {
      DecWord(ek, nrounds, i, 0);
      DecWord(ek, nrounds, i, 1);
      DecWord(ek, nrounds, i, 2);
      DecWord(ek, nrounds, i, 3);
    }
  }

  /** InvMixColumns of a word as the source computes it, by way of the S-box. */
  function UnmixByTables(w: Word): Word {
    Sum4(Td0(Te4(w.b3).b0), Td1(Te4(w.b2).b0),
         Td2(Te4(w.b1).b0), Td3(Te4(w.b0).b0))
  }

  lemma UnmixByTablesShape(w: Word)
    ensures UnmixByTables(w) == Unmix(w)
  {
    hide Unmix0, Unmix1, Unmix2, Unmix3, Sum4, SBox, InvSBox;
    SBoxInverse(w.b3);
    SBoxInverse(w.b2);
    SBoxInverse(w.b1);
    SBoxInverse(w.b0);
  }

  lemma ReversedGroup(i: nat, j: nat, nrounds: nat)
    requires i + j == 4 * nrounds && i % 4 == 0 && j % 4 == 0
    ensures Reversed(i, nrounds) == j && Reversed(i + 1, nrounds) == j + 1
    ensures Reversed(i + 2, nrounds) == j + 2 && Reversed(i + 3, nrounds) == j + 3
  {}

  /** Two groups of four words have changed places. */
  ghost predicate Swapped<T>(s: seq<T>, t: seq<T>, i: nat, j: nat) {
    && i + 4 <= j && j + 4 <= |s| == |t|
    && t[i] == s[j] && t[i + 1] == s[j + 1] && t[i + 2] == s[j + 2] && t[i + 3] == s[j + 3]
    && t[j] == s[i] && t[j + 1] == s[i + 1] && t[j + 2] == s[i + 2] && t[j + 3] == s[i + 3]
    && forall k | 0 <= k < |s| && !(i <= k < i + 4) && !(j <= k < j + 4) :: t[k] == s[k]
  }

  method SwapGroups<T>(rk: array<T>, i: nat, j: nat)
    requires i + 4 <= j && j + 4 <= rk.Length
    modifies rk
    ensures Swapped(old(rk[..]), rk[..], i, j)
  {
    rk[i], rk[j] := rk[j], rk[i];
    rk[i + 1], rk[j + 1] := rk[j + 1], rk[i + 1];
    rk[i + 2], rk[j + 2] := rk[j + 2], rk[i + 2];
    rk[i + 3], rk[j + 3] := rk[j + 3], rk[i + 3];
  }

  /** t is s with the groups in front of i and behind j at their mirrored places. */
  ghost predicate Turned<T>(s: seq<T>, t: seq<T>, i: nat, j: int, nrounds: nat) {
    && |s| == |t| >= 4 * (nrounds + 1)
    && (forall k: nat | k < 4 * (nrounds + 1) && (k < i || j + 4 <= k) :: t[k] == s[Reversed(k, nrounds)])
    && (forall k: nat | (i <= k < j + 4 || 4 * (nrounds + 1) <= k) && k < |s| :: t[k] == s[k])
  }

  lemma TurnMore<T>(s: seq<T>, t: seq<T>, u: seq<T>, i: nat, j: nat, nrounds: nat)
    requires Turned(s, t, i, j, nrounds) && Swapped(t, u, i, j)
    requires i + j == 4 * nrounds && i % 4 == 0 && j % 4 == 0
    ensures Turned(s, u, i + 4, j - 4, nrounds)
  {
    hide Reversed;
    ReversedGroup(i, j, nrounds);
    ReversedGroup(j, i, nrounds);
  }

  lemma AllTurned<T>(s: seq<T>, t: seq<T>, i: nat, j: int, nrounds: nat)
    requires Turned(s, t, i, j, nrounds) && i >= j && i + j == 4 * nrounds && i % 4 == 0
    ensures forall k: nat | k < 4 * (nrounds + 1) :: t[k] == s[Reversed(k, nrounds)]
    ensures forall k | 4 * (nrounds + 1) <= k < |s| :: t[k] == s[k]
  {
    hide Reversed;
    if i == j {
      ReversedGroup(i, i, nrounds);
    } else {
      assert i >= j + 4;
    }
  }

  /** Reverses the order of the round keys in place. */
  method ReverseKeys<T>(rk: array<T>, nrounds: nat)
    requires rk.Length >= 4 * (nrounds + 1)
    modifies rk
    ensures forall k: nat | k < 4 * (nrounds + 1) :: rk[k] == old(rk[Reversed(k, nrounds)])
    ensures forall k | 4 * (nrounds + 1) <= k < rk.Length :: rk[k] == old(rk[k])
  {
    hide Reversed, Turned, Swapped;
    ghost var was := rk[..];
    NothingTurned(was, nrounds);
    var i, j := 0, 4 * nrounds;
    while i < j
      invariant 0 <= i && i + j == 4 * nrounds && i % 4 == 0 && j >= -4
      invariant Turned(was, rk[..], i, j, nrounds)
    {
      ghost var before := rk[..];
      SwapGroups(rk, i, j);
      TurnMore(was, before, rk[..], i, j, nrounds);
      i, j := i + 4, j - 4;
    }
    AllTurned(was, rk[..], i, j, nrounds);
  }

  lemma NothingTurned<T>(s: seq<T>, nrounds: nat)
    requires |s| >= 4 * (nrounds + 1)
    ensures Turned(s, s, 0, 4 * nrounds, nrounds)
  {}

  method UnmixGroup(rk: array<Word>, o: nat)
    requires o + 4 <= rk.Length
    modifies rk
    ensures forall k | 0 <= k < rk.Length :: rk[k] == if o <= k < o + 4 then Unmix(old(rk[k])) else old(rk[k])
  {
    hide Unmix, UnmixByTables;
    UnmixByTablesShape(rk[o]);
    UnmixByTablesShape(rk[o + 1]);
    UnmixByTablesShape(rk[o + 2]);
    UnmixByTablesShape(rk[o + 3]);
    rk[o] := UnmixByTables(rk[o]);
    rk[o + 1] := UnmixByTables(rk[o + 1]);
    rk[o + 2] := UnmixByTables(rk[o + 2]);
    rk[o + 3] := UnmixByTables(rk[o + 3]);
  }

  /** Applies InvMixColumns to all round keys but the first and the last. */
  method UnmixKeys(rk: array<Word>, nrounds: nat)
    requires rk.Length >= 4 * (nrounds + 1)
    modifies rk
    ensures forall k: nat | k < 4 * (nrounds + 1) ::
              rk[k] == if 0 < k / 4 < nrounds then Unmix(old(rk[k])) else old(rk[k])
    ensures forall k | 4 * (nrounds + 1) <= k < rk.Length :: rk[k] == old(rk[k])
  {
    hide Unmix, UnmixByTables;
    var i, o := 1, 0;
    while i < nrounds
      invariant 1 <= i && (nrounds > 0 ==> i <= nrounds) && o == 4 * (i - 1)
      invariant forall k: nat | k < 4 * (nrounds + 1) ::
                  rk[k] == if 4 <= k < 4 * i then Unmix(old(rk[k])) else old(rk[k])
      invariant forall k | 4 * (nrounds + 1) <= k < rk.Length :: rk[k] == old(rk[k])
    {
      o := o + 4;
      UnmixGroup(rk, o);
      i := i + 1;
    }
  }

  /** aesSetupDecrypt: expands the key, reverses the round keys in place and applies
      InvMixColumns to all but the first and the last. */
  method SetupDecrypt(rk: array<Word>, key: seq<bv8>, keybits: int) returns (nrounds: nat)
    requires |key| >= 4 * Nk(keybits)
    requires rk.Length >= Filled(keybits)
    modifies rk
    ensures nrounds == Rounds(keybits)
    ensures nrounds > 0 ==> rk[..4 * (nrounds + 1)] == DecSchedule(EncSchedule(key, keybits), nrounds)
    ensures nrounds == 0 ==> rk[..8] == KeyWords(key, 8)
    ensures forall k | Filled(keybits) <= k < rk.Length :: rk[k] == old(rk[k])
  {
    hide EncSchedule, Unmix, DecSchedule, Reversed, KeyWords;
    nrounds := SetupEncrypt(rk, key, keybits);
    ghost var ek := rk[..];
    ReverseKeys(rk, nrounds);
    ghost var turned := rk[..];
    UnmixKeys(rk, nrounds);
    DecryptReady(ek, turned, rk[..], nrounds);
  }

  lemma DecryptReady(ek: seq<Word>, turned: seq<Word>, dk: seq<Word>, nrounds: nat)
    requires var n := 4 * (nrounds + 1);
             && n <= |ek| == |turned| == |dk|
             && (forall k: nat | k < n :: turned[k] == ek[Reversed(k, nrounds)])
             && (forall k | n <= k < |ek| :: turned[k] == ek[k])
             && (forall k: nat | k < n :: dk[k] == if 0 < k / 4 < nrounds then Unmix(turned[k]) else turned[k])
             && (forall k | n <= k < |ek| :: dk[k] == turned[k])
    ensures var n := 4 * (nrounds + 1);
            && dk[..n] == DecSchedule(ek[..n], nrounds) && dk[n..] == ek[n..]
            && (nrounds == 0 ==> dk == ek)
  {
    hide Unmix, DecSchedule, Reversed;
    var n := 4 * (nrounds + 1);
    DecScheduleIs(ek[..n], turned[..n], dk[..n], nrounds);
    if nrounds == 0 {
      ReversedGroup(0, 0, nrounds);
    }
  }

  lemma DecScheduleIs(ek: seq<Word>, turned: seq<Word>, dk: seq<Word>, nrounds: nat)
    requires |ek| == |turned| == |dk| == 4 * (nrounds + 1)
    requires forall k | 0 <= k < |ek| :: turned[k] == ek[Reversed(k, nrounds)]
    requires forall k | 0 <= k < |ek| :: dk[k] == if 0 < k / 4 < nrounds then Unmix(turned[k]) else turned[k]
    ensures dk == DecSchedule(ek, nrounds)
  {
    hide Unmix, Reversed;
  }

  // ---------------------------------------------------------------- block operations

  function EncryptBytes(p: seq<bv8>, rk: seq<Word>, nrounds: nat): (c: seq<bv8>)
    requires |p| == 16 && nrounds > 0 && |rk| >= 4 * (nrounds + 1)
    ensures |c| == 16
  {
    FromBlock(Encrypt(ToBlock(p), rk, nrounds))
  }

  function DecryptBytes(c: seq<bv8>, rk: seq<Word>, nrounds: nat): (p: seq<bv8>)
    requires |c| == 16 && nrounds > 0 && |rk| >= 4 * (nrounds + 1)
    ensures |p| == 16
  {
    FromBlock(Decrypt(ToBlock(c), rk, nrounds))
  }

  /** aesDoEncrypt. The source unrolls the rounds by hand; this is the loop. */
  method DoEncrypt(rk: seq<Word>, nrounds: nat, plaintext: seq<bv8>) returns (ciphertext: seq<bv8>)
    requires nrounds > 0 && |rk| >= 4 * (nrounds + 1) && |plaintext| == 16
    ensures ciphertext == EncryptBytes(plaintext, rk, nrounds)
  {
    hide EncRound, EncLast, ToBlock, FromBlock, AddKey;
    var s := AddKey(ToBlock(plaintext), Block(rk[0], rk[1], rk[2], rk[3]));
    var r := 1;
    while r < nrounds
      invariant 1 <= r <= nrounds
      invariant s == EncState(ToBlock(plaintext), rk, r - 1)
    {
      s := EncRound(s, Block(rk[4 * r], rk[4 * r + 1], rk[4 * r + 2], rk[4 * r + 3]));
      r := r + 1;
    }
    s := EncLast(s, Block(rk[4 * r], rk[4 * r + 1], rk[4 * r + 2], rk[4 * r + 3]));
    ciphertext := FromBlock(s);
  }

  /** aesDoDecrypt. */
  method DoDecrypt(rk: seq<Word>, nrounds: nat, ciphertext: seq<bv8>) returns (plaintext: seq<bv8>)
    requires nrounds > 0 && |rk| >= 4 * (nrounds + 1) && |ciphertext| == 16
    ensures plaintext == DecryptBytes(ciphertext, rk, nrounds)
  {
    hide DecRound, DecLast, ToBlock, FromBlock, AddKey;
    var s := AddKey(ToBlock(ciphertext), Block(rk[0], rk[1], rk[2], rk[3]));
    var r := 1;
    while r < nrounds
      invariant 1 <= r <= nrounds
      invariant s == DecState(ToBlock(ciphertext), rk, r - 1)
    {
      s := DecRound(s, Block(rk[4 * r], rk[4 * r + 1], rk[4 * r + 2], rk[4 * r + 3]));
      r := r + 1;
    }
    s := DecLast(s, Block(rk[4 * r], rk[4 * r + 1], rk[4 * r + 2], rk[4 * r + 3]));
    plaintext := FromBlock(s);
  }

  /** For every key of 128, 192 or 256 bits and every block, decryption under the schedule
      of aesSetupDecrypt undoes encryption under the schedule of aesSetupEncrypt. */
  lemma BlockRoundTrip(key: seq<bv8>, keybits: int, p: seq<bv8>)
    requires keybits in {128, 192, 256} && |key| >= keybits / 8 && |p| == 16
    ensures var ek := EncSchedule(key, keybits);
            var n := Rounds(keybits);
            DecryptBytes(EncryptBytes(p, ek, n), DecSchedule(ek, n), n) == p
  {
    hide EncSchedule, DecSchedule, Encrypt, Decrypt;
    var ek := EncSchedule(key, keybits);
    var n := Rounds(keybits);
    DecScheduleInverts(ek, n);
    DecryptEncrypt(ToBlock(p), ek, DecSchedule(ek, n), n);
    BlockBytes(Encrypt(ToBlock(p), ek, n));
    BytesBlock(p);
  }
}
