/** Known answers: the key expansions of appendix A of FIPS 197 and the cipher example of its
    appendix B, with the values that the standard tabulates round by round. */
module AesVectors {
  import opened AesTables
  import opened Aes
  import opened AesKeys
  import AesEcb

  // The round keys of appendix A.1.
  const K0 := Block(Word(0x2b, 0x7e, 0x15, 0x16), Word(0x28, 0xae, 0xd2, 0xa6),
                    Word(0xab, 0xf7, 0x15, 0x88), Word(0x09, 0xcf, 0x4f, 0x3c))
  const K1 := Block(Word(0xa0, 0xfa, 0xfe, 0x17), Word(0x88, 0x54, 0x2c, 0xb1),
                    Word(0x23, 0xa3, 0x39, 0x39), Word(0x2a, 0x6c, 0x76, 0x05))
  const K2 := Block(Word(0xf2, 0xc2, 0x95, 0xf2), Word(0x7a, 0x96, 0xb9, 0x43),
                    Word(0x59, 0x35, 0x80, 0x7a), Word(0x73, 0x59, 0xf6, 0x7f))
  const K3 := Block(Word(0x3d, 0x80, 0x47, 0x7d), Word(0x47, 0x16, 0xfe, 0x3e),
                    Word(0x1e, 0x23, 0x7e, 0x44), Word(0x6d, 0x7a, 0x88, 0x3b))
  const K4 := Block(Word(0xef, 0x44, 0xa5, 0x41), Word(0xa8, 0x52, 0x5b, 0x7f),
                    Word(0xb6, 0x71, 0x25, 0x3b), Word(0xdb, 0x0b, 0xad, 0x00))
  const K5 := Block(Word(0xd4, 0xd1, 0xc6, 0xf8), Word(0x7c, 0x83, 0x9d, 0x87),
                    Word(0xca, 0xf2, 0xb8, 0xbc), Word(0x11, 0xf9, 0x15, 0xbc))
  const K6 := Block(Word(0x6d, 0x88, 0xa3, 0x7a), Word(0x11, 0x0b, 0x3e, 0xfd),
                    Word(0xdb, 0xf9, 0x86, 0x41), Word(0xca, 0x00, 0x93, 0xfd))
  const K7 := Block(Word(0x4e, 0x54, 0xf7, 0x0e), Word(0x5f, 0x5f, 0xc9, 0xf3),
                    Word(0x84, 0xa6, 0x4f, 0xb2), Word(0x4e, 0xa6, 0xdc, 0x4f))
  const K8 := Block(Word(0xea, 0xd2, 0x73, 0x21), Word(0xb5, 0x8d, 0xba, 0xd2),
                    Word(0x31, 0x2b, 0xf5, 0x60), Word(0x7f, 0x8d, 0x29, 0x2f))
  const K9 := Block(Word(0xac, 0x77, 0x66, 0xf3), Word(0x19, 0xfa, 0xdc, 0x21),
                    Word(0x28, 0xd1, 0x29, 0x41), Word(0x57, 0x5c, 0x00, 0x6e))
  const K10 := Block(Word(0xd0, 0x14, 0xf9, 0xa8), Word(0xc9, 0xee, 0x25, 0x89),
                     Word(0xe1, 0x3f, 0x0c, 0xc8), Word(0xb6, 0x63, 0x0c, 0xa6))

  // The state at the start of each round of appendix B, the last one being the output.
  const S0 := Block(Word(0x19, 0x3d, 0xe3, 0xbe), Word(0xa0, 0xf4, 0xe2, 0x2b),
                    Word(0x9a, 0xc6, 0x8d, 0x2a), Word(0xe9, 0xf8, 0x48, 0x08))
  const S1 := Block(Word(0xa4, 0x9c, 0x7f, 0xf2), Word(0x68, 0x9f, 0x35, 0x2b),
                    Word(0x6b, 0x5b, 0xea, 0x43), Word(0x02, 0x6a, 0x50, 0x49))
  const S2 := Block(Word(0xaa, 0x8f, 0x5f, 0x03), Word(0x61, 0xdd, 0xe3, 0xef),
                    Word(0x82, 0xd2, 0x4a, 0xd2), Word(0x68, 0x32, 0x46, 0x9a))
  const S3 := Block(Word(0x48, 0x6c, 0x4e, 0xee), Word(0x67, 0x1d, 0x9d, 0x0d),
                    Word(0x4d, 0xe3, 0xb1, 0x38), Word(0xd6, 0x5f, 0x58, 0xe7))
  const S4 := Block(Word(0xe0, 0x92, 0x7f, 0xe8), Word(0xc8, 0x63, 0x63, 0xc0),
                    Word(0xd9, 0xb1, 0x35, 0x50), Word(0x85, 0xb8, 0xbe, 0x01))
  const S5 := Block(Word(0xf1, 0x00, 0x6f, 0x55), Word(0xc1, 0x92, 0x4c, 0xef),
                    Word(0x7c, 0xc8, 0x8b, 0x32), Word(0x5d, 0xb5, 0xd5, 0x0c))
  const S6 := Block(Word(0x26, 0x0e, 0x2e, 0x17), Word(0x3d, 0x41, 0xb7, 0x7d),
                    Word(0xe8, 0x64, 0x72, 0xa9), Word(0xfd, 0xd2, 0x8b, 0x25))
  const S7 := Block(Word(0x5a, 0x41, 0x42, 0xb1), Word(0x19, 0x49, 0xdc, 0x1f),
                    Word(0xa3, 0xe0, 0x19, 0x65), Word(0x7a, 0x8c, 0x04, 0x0c))
  const S8 := Block(Word(0xea, 0x83, 0x5c, 0xf0), Word(0x04, 0x45, 0x33, 0x2d),
                    Word(0x65, 0x5d, 0x98, 0xad), Word(0x85, 0x96, 0xb0, 0xc5))
  const S9 := Block(Word(0xeb, 0x40, 0xf2, 0x1e), Word(0x59, 0x2e, 0x38, 0x84),
                    Word(0x8b, 0xa1, 0x13, 0xe7), Word(0x1b, 0xc3, 0x42, 0xd2))
  const S10 := Block(Word(0x39, 0x25, 0x84, 0x1d), Word(0x02, 0xdc, 0x09, 0xfb),
                     Word(0xdc, 0x11, 0x85, 0x97), Word(0x19, 0x6a, 0x0b, 0x32))

  // The state behind ShiftRows in each round.
  const U1 := Block(Word(0xd4, 0xbf, 0x5d, 0x30), Word(0xe0, 0xb4, 0x52, 0xae),
                    Word(0xb8, 0x41, 0x11, 0xf1), Word(0x1e, 0x27, 0x98, 0xe5))
  const U2 := Block(Word(0x49, 0xdb, 0x87, 0x3b), Word(0x45, 0x39, 0x53, 0x89),
                    Word(0x7f, 0x02, 0xd2, 0xf1), Word(0x77, 0xde, 0x96, 0x1a))
  const U3 := Block(Word(0xac, 0xc1, 0xd6, 0xb8), Word(0xef, 0xb5, 0x5a, 0x7b),
                    Word(0x13, 0x23, 0xcf, 0xdf), Word(0x45, 0x73, 0x11, 0xb5))
  const U4 := Block(Word(0x52, 0xa4, 0xc8, 0x94), Word(0x85, 0x11, 0x6a, 0x28),
                    Word(0xe3, 0xcf, 0x2f, 0xd7), Word(0xf6, 0x50, 0x5e, 0x07))
  const U5 := Block(Word(0xe1, 0xfb, 0x96, 0x7c), Word(0xe8, 0xc8, 0xae, 0x9b),
                    Word(0x35, 0x6c, 0xd2, 0xba), Word(0x97, 0x4f, 0xfb, 0x53))
  const U6 := Block(Word(0xa1, 0x4f, 0x3d, 0xfe), Word(0x78, 0xe8, 0x03, 0xfc),
                    Word(0x10, 0xd5, 0xa8, 0xdf), Word(0x4c, 0x63, 0x29, 0x23))
  const U7 := Block(Word(0xf7, 0x83, 0x40, 0x3f), Word(0x27, 0x43, 0x3d, 0xf0),
                    Word(0x9b, 0xb5, 0x31, 0xff), Word(0x54, 0xab, 0xa9, 0xd3))
  const U8 := Block(Word(0xbe, 0x3b, 0xd4, 0xfe), Word(0xd4, 0xe1, 0xf2, 0xc8),
                    Word(0x0a, 0x64, 0x2c, 0xc0), Word(0xda, 0x83, 0x86, 0x4d))
  const U9 := Block(Word(0x87, 0x6e, 0x46, 0xa6), Word(0xf2, 0x4c, 0xe7, 0x8c),
                    Word(0x4d, 0x90, 0x4a, 0xd8), Word(0x97, 0xec, 0xc3, 0x95))
  const U10 := Block(Word(0xe9, 0x31, 0x7d, 0xb5), Word(0xcb, 0x32, 0x2c, 0x72),
                     Word(0x3d, 0x2e, 0x89, 0x5f), Word(0xaf, 0x09, 0x07, 0x94))

  /** Round key q of the expansion of a key of four words. */
  predicate KeyIs(key: seq<Word>, q: nat, k: Block) {
    && |key| == 4 && q <= 10
    && Expand(key, 4 * q) == k.s0 && Expand(key, 4 * q + 1) == k.s1
    && Expand(key, 4 * q + 2) == k.s2 && Expand(key, 4 * q + 3) == k.s3
  }

  lemma NextKey(key: seq<Word>, q: nat, k: Block, n: Block)
    requires q < 10 && KeyIs(key, q, k)
    requires n.s0 == Xor(k.s0, Xor(SubWord(RotWord(k.s3)), Rcon(q)))
    requires n.s1 == Xor(k.s1, n.s0) && n.s2 == Xor(k.s2, n.s1) && n.s3 == Xor(k.s3, n.s2)
    ensures KeyIs(key, q + 1, n)
  {
    hide Expand, RotSub, SubWord, RotWord, Xor, Rcon;
    Group4(key, q);
    RotSubShape(k.s3, Rcon(q));
  }

  /** Appendix A.1. */
  lemma Keys1To2(key: seq<Word>)
    requires KeyIs(key, 0, K0)
    ensures KeyIs(key, 1, K1)
    ensures KeyIs(key, 2, K2)
  {
    hide KeyIs, Expand;
    NextKey(key, 0, K0, K1);
    NextKey(key, 1, K1, K2);
  }

  lemma Keys3To4(key: seq<Word>)
    requires KeyIs(key, 2, K2)
    ensures KeyIs(key, 3, K3)
    ensures KeyIs(key, 4, K4)
  {
    hide KeyIs, Expand;
    NextKey(key, 2, K2, K3);
    NextKey(key, 3, K3, K4);
  }

  lemma Keys5To7(key: seq<Word>)
    requires KeyIs(key, 4, K4)
    ensures KeyIs(key, 5, K5)
    ensures KeyIs(key, 6, K6)
    ensures KeyIs(key, 7, K7)
  {
    hide KeyIs, Expand;
    NextKey(key, 4, K4, K5);
    NextKey(key, 5, K5, K6);
    NextKey(key, 6, K6, K7);
  }

  lemma Keys8To10(key: seq<Word>)
    requires KeyIs(key, 7, K7)
    ensures KeyIs(key, 8, K8)
    ensures KeyIs(key, 9, K9)
    ensures KeyIs(key, 10, K10)
  {
    hide KeyIs, Expand;
    NextKey(key, 7, K7, K8);
    NextKey(key, 8, K8, K9);
    NextKey(key, 9, K9, K10);
  }

  lemma StartKey(key: seq<Word>, k: Block)
    requires key == [k.s0, k.s1, k.s2, k.s3]
    ensures KeyIs(key, 0, k)
  {}

  /** The word behind the six of the key of appendix A.2. */
  lemma KeyA2(key: seq<Word>)
    requires |key| == 6 && key[0] == Word(0x8e, 0x73, 0xb0, 0xf7)
    requires key[5] == Word(0x52, 0x2c, 0x6b, 0x7b)
    ensures Expand(key, 6) == Word(0xfe, 0x0c, 0x91, 0xf7)
  {}

  /** Words 8 and 12 of the expansion of appendix A.3: with eight words in the key, the words
      in the middle of each group are substituted too. */
  lemma KeyA3(key: seq<Word>)
    requires |key| == 8 && key[0] == Word(0x60, 0x3d, 0xeb, 0x10) && key[1] == Word(0x15, 0xca, 0x71, 0xbe)
    requires key[2] == Word(0x2b, 0x73, 0xae, 0xf0) && key[3] == Word(0x85, 0x7d, 0x77, 0x81)
    requires key[4] == Word(0x1f, 0x35, 0x2c, 0x07) && key[7] == Word(0x09, 0x14, 0xdf, 0xf4)
    ensures Expand(key, 8) == Word(0x9b, 0xa3, 0x54, 0x11) && Expand(key, 11) == Word(0x20, 0x67, 0xfc, 0xde)
    ensures Expand(key, 12) == Word(0xa8, 0xb0, 0x9c, 0x1a)
  {
    hide Expand, SubWord, RotWord, Xor, Rcon, RotSub, Sub;
    FirstOfKeyA3(key);
    RestOfKeyA3(key);
    GroupMiddle(key, 12);
    RotSubShape(Expand(key, 11), Rcon(0));
    MiddleOfKeyA3();
    FirstWord(key, 4);
  }

  lemma FirstWord(key: seq<Word>, i: nat)
    requires KeySize(|key|) && i < |key|
    ensures Expand(key, i) == key[i]
  {}

  lemma FirstOfKeyA3(key: seq<Word>)
    requires |key| == 8 && key[0] == Word(0x60, 0x3d, 0xeb, 0x10) && key[7] == Word(0x09, 0x14, 0xdf, 0xf4)
    ensures Expand(key, 8) == Word(0x9b, 0xa3, 0x54, 0x11)
  {}

  lemma RestOfKeyA3(key: seq<Word>)
    requires |key| == 8 && key[1] == Word(0x15, 0xca, 0x71, 0xbe) && key[2] == Word(0x2b, 0x73, 0xae, 0xf0)
    requires key[3] == Word(0x85, 0x7d, 0x77, 0x81) && Expand(key, 8) == Word(0x9b, 0xa3, 0x54, 0x11)
    ensures Expand(key, 11) == Word(0x20, 0x67, 0xfc, 0xde)
  {
    hide Expand;
    FirstWord(key, 1);
    FirstWord(key, 2);
    FirstWord(key, 3);
    PlainNext(key, 9);
    PlainNext(key, 10);
    PlainNext(key, 11);
  }

  lemma MiddleOfKeyA3()
    ensures Xor(Word(0x1f, 0x35, 0x2c, 0x07), SubWord(Word(0x20, 0x67, 0xfc, 0xde))) == Word(0xa8, 0xb0, 0x9c, 0x1a)
  {}

  // ---------------------------------------------------------------- appendix B

  /** The state after r full rounds of the cipher. */
  predicate StateIs(p: Block, rk: seq<Word>, r: nat, s: Block) {
    |rk| == 44 && r <= 9 && EncState(p, rk, r) == s
  }

  lemma NextState(p: Block, rk: seq<Word>, r: nat, s: Block, u: Block, k: Block, t: Block)
    requires r < 9 && StateIs(p, rk, r, s) && Key(rk, r + 1) == k
    requires SubShift(s) == u && AddKey(MixBlock(u), k) == t
    ensures StateIs(p, rk, r + 1, t)
  {
    hide EncRound, SubShift, AddKey, MixBlock, Key;
    EncRoundShape(s, k);
  }

  /** The round keys of a schedule. */
  ghost predicate Scheduled(rk: seq<Word>) {
    && |rk| == 44
    && Key(rk, 1) == K1 && Key(rk, 2) == K2 && Key(rk, 3) == K3 && Key(rk, 4) == K4 && Key(rk, 5) == K5
    && Key(rk, 6) == K6 && Key(rk, 7) == K7 && Key(rk, 8) == K8 && Key(rk, 9) == K9 && Key(rk, 10) == K10
  }

  lemma Rounds1To3(p: Block, rk: seq<Word>)
    requires Scheduled(rk) && StateIs(p, rk, 0, S0)
    ensures StateIs(p, rk, 3, S3)
  {
    hide StateIs, Key;
    NextState(p, rk, 0, S0, U1, K1, S1);
    NextState(p, rk, 1, S1, U2, K2, S2);
    NextState(p, rk, 2, S2, U3, K3, S3);
  }

  lemma Rounds4To6(p: Block, rk: seq<Word>)
    requires Scheduled(rk) && StateIs(p, rk, 3, S3)
    ensures StateIs(p, rk, 6, S6)
  {
    hide StateIs, Key;
    NextState(p, rk, 3, S3, U4, K4, S4);
    NextState(p, rk, 4, S4, U5, K5, S5);
    NextState(p, rk, 5, S5, U6, K6, S6);
  }

  lemma Rounds7To9(p: Block, rk: seq<Word>)
    requires Scheduled(rk) && StateIs(p, rk, 6, S6)
    ensures StateIs(p, rk, 9, S9)
  {
    hide StateIs, Key;
    NextState(p, rk, 6, S6, U7, K7, S7);
    NextState(p, rk, 7, S7, U8, K8, S8);
    NextState(p, rk, 8, S8, U9, K9, S9);
  }

  lemma ScheduleIs(key: seq<Word>, rk: seq<Word>)
    requires key == [K0.s0, K0.s1, K0.s2, K0.s3] && |rk| == 44 && forall i | 0 <= i < 44 :: rk[i] == Expand(key, i)
    ensures Scheduled(rk) && Key(rk, 0) == K0
  {
    hide Expand;
    StartKey(key, K0);
    Keys1To2(key);
    Keys3To4(key);
    Keys5To7(key);
    Keys8To10(key);
  }

  lemma AllRounds(p: Block, rk: seq<Word>)
    requires Scheduled(rk) && Key(rk, 0) == K0 && AddKey(p, K0) == S0
    ensures Encrypt(p, rk, 10) == S10
  {
    hide EncRound, EncLast, Key;
    assert StateIs(p, rk, 0, S0);
    Rounds1To3(p, rk);
    Rounds4To6(p, rk);
    Rounds7To9(p, rk);
    LastRound();
  }

  lemma LastRound()
    ensures EncLast(S9, K10) == S10
  {
    hide EncLast, SubShift, AddKey;
    EncRoundShape(S9, K10);
    LastShift();
    LastKey();
  }

  lemma LastShift()
    ensures SubShift(S9) == U10
  {}

  lemma LastKey()
    ensures AddKey(U10, K10) == S10
  {}

  /** The cipher example of appendix B, from bytes to bytes. */
  lemma AppendixB(key: seq<bv8>, p: seq<bv8>)
    requires key == [0x2b, 0x7e, 0x15, 0x16, 0x28, 0xae, 0xd2, 0xa6,
                     0xab, 0xf7, 0x15, 0x88, 0x09, 0xcf, 0x4f, 0x3c]
    requires p == [0x32, 0x43, 0xf6, 0xa8, 0x88, 0x5a, 0x30, 0x8d,
                   0x31, 0x31, 0x98, 0xa2, 0xe0, 0x37, 0x07, 0x34]
    ensures EncryptBytes(p, EncSchedule(key, 128), 10)
            == [0x39, 0x25, 0x84, 0x1d, 0x02, 0xdc, 0x09, 0xfb,
                0xdc, 0x11, 0x85, 0x97, 0x19, 0x6a, 0x0b, 0x32]
  {
    hide Encrypt, Expand, Scheduled, Key;
    var w, rk := KeyWords(key, 4), EncSchedule(key, 128);
    assert w == [K0.s0, K0.s1, K0.s2, K0.s3];
    ScheduleIs(w, rk);
    assert AddKey(ToBlock(p), K0) == S0;
    AllRounds(ToBlock(p), rk);
  }

  /** The same block as a message of its own: its ciphertext is followed by a block of padding. */
  lemma AppendixBMessage(password: seq<bv8>, input: seq<bv8>)
    requires password == [0x2b, 0x7e, 0x15, 0x16, 0x28, 0xae, 0xd2, 0xa6,
                          0xab, 0xf7, 0x15, 0x88, 0x09, 0xcf, 0x4f, 0x3c]
    requires input == [0x32, 0x43, 0xf6, 0xa8, 0x88, 0x5a, 0x30, 0x8d,
                       0x31, 0x31, 0x98, 0xa2, 0xe0, 0x37, 0x07, 0x34]
    ensures |AesEcb.Ciphertext(input, password)| == 32
    ensures AesEcb.Ciphertext(input, password)[..16]
            == [0x39, 0x25, 0x84, 0x1d, 0x02, 0xdc, 0x09, 0xfb,
                0xdc, 0x11, 0x85, 0x97, 0x19, 0x6a, 0x0b, 0x32]
  {
    hide EncSchedule, EncryptBytes, AesEcb.EncryptAll, AesEcb.Pad;
    AppendixB(password, input);
    assert password[..16] == password;
    AesEcb.BlocksApart(AesEcb.Pad(input), EncSchedule(password, 128), 0);
    assert AesEcb.Pad(input)[..16] == input by {
      forall k | 0 <= k < 16 ensures AesEcb.Pad(input)[k] == input[k] {
        AesEcb.PadIs(input, k);
      }
    }
  }
}
