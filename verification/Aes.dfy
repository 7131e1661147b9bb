/** The block cipher of crypto/aes.h: key schedules, the table-driven encryptor, the
    "equivalent inverse" decryptor (section 5.3.5 of FIPS 197), and the proof that the
    second undoes the first under the schedules the library derives from one key. */
module Aes {
  import opened AesTables

  // ---------------------------------------------------------------- words and tables

  /** A 32-bit word as its four bytes, most significant first. The cipher only takes the
      bytes of words, masks whole bytes and combines words by exclusive or. */
  datatype Word = Word(b3: bv8, b2: bv8, b1: bv8, b0: bv8)

  /** Four cipher state words s0..s3, one column of the AES state each. */
  datatype Block = Block(s0: Word, s1: Word, s2: Word, s3: Word)

  /** Multiplication by x in GF(2^8) modulo x^8 + x^4 + x^3 + x + 1. */
  function Xtime(b: bv8): bv8 { (b << 1) ^ (b >> 7) ^ ((b >> 7) << 1) ^ ((b >> 7) << 3) ^ ((b >> 7) << 4) }

  // Exclusive or, by name: the proofs below treat it as the addition of a vector space.
  function Add(a: bv8, b: bv8): bv8 { a ^ b }
  function Xor(a: Word, b: Word): Word {
    Word(Add(a.b3, b.b3), Add(a.b2, b.b2), Add(a.b1, b.b1), Add(a.b0, b.b0))
  }
  function Sum4(a: Word, b: Word, c: Word, d: Word): Word { Xor(Xor(Xor(a, b), c), d) }

  // Words with all but one byte masked off.
  function Mask3(w: Word): Word { Word(w.b3, 0, 0, 0) }
  function Mask2(w: Word): Word { Word(0, w.b2, 0, 0) }
  function Mask1(w: Word): Word { Word(0, 0, w.b1, 0) }
  function Mask0(w: Word): Word { Word(0, 0, 0, w.b0) }

  function Mul3(b: bv8): bv8 { Add(Xtime(b), b) }
  function Mul9(b: bv8): bv8 { Add(Xtime(Xtime(Xtime(b))), b) }
  function Mul11(b: bv8): bv8 { Add(Mul9(b), Xtime(b)) }
  function Mul13(b: bv8): bv8 { Add(Mul9(b), Xtime(Xtime(b))) }
  function Mul14(b: bv8): bv8 { Add(Add(Xtime(Xtime(Xtime(b))), Xtime(Xtime(b))), Xtime(b)) }

  // The columns of the MixColumns matrix scaled by a byte, and of its inverse.
  function Mix0(b: bv8): Word { Word(Xtime(b), b, b, Mul3(b)) }
  function Mix1(b: bv8): Word { Word(Mul3(b), Xtime(b), b, b) }
  function Mix2(b: bv8): Word { Word(b, Mul3(b), Xtime(b), b) }
  function Mix3(b: bv8): Word { Word(b, b, Mul3(b), Xtime(b)) }
  function Unmix0(b: bv8): Word { Word(Mul14(b), Mul9(b), Mul13(b), Mul11(b)) }
  function Unmix1(b: bv8): Word { Word(Mul11(b), Mul14(b), Mul9(b), Mul13(b)) }
  function Unmix2(b: bv8): Word { Word(Mul13(b), Mul11(b), Mul14(b), Mul9(b)) }
  function Unmix3(b: bv8): Word { Word(Mul9(b), Mul13(b), Mul11(b), Mul14(b)) }

  function Te0(b: bv8): Word { Mix0(SBox(b)) }
  function Te1(b: bv8): Word { Mix1(SBox(b)) }
  function Te2(b: bv8): Word { Mix2(SBox(b)) }
  function Te3(b: bv8): Word { Mix3(SBox(b)) }
  function Te4(b: bv8): Word { var s := SBox(b); Word(s, s, s, s) }
  function Td0(b: bv8): Word { Unmix0(InvSBox(b)) }
  function Td1(b: bv8): Word { Unmix1(InvSBox(b)) }
  function Td2(b: bv8): Word { Unmix2(InvSBox(b)) }
  function Td3(b: bv8): Word { Unmix3(InvSBox(b)) }
  function Td4(b: bv8): Word { var s := InvSBox(b); Word(s, s, s, s) }

  // ---------------------------------------------------------------- rounds

  function AddKey(s: Block, k: Block): Block {
    Block(Xor(s.s0, k.s0), Xor(s.s1, k.s1), Xor(s.s2, k.s2), Xor(s.s3, k.s3))
  }

  function EncWord(a: Word, b: Word, c: Word, d: Word, k: Word): Word {
    Xor(Sum4(Te0(a.b3), Te1(b.b2), Te2(c.b1), Te3(d.b0)), k)
  }

  function EncRound(s: Block, k: Block): Block {
    Block(EncWord(s.s0, s.s1, s.s2, s.s3, k.s0), EncWord(s.s1, s.s2, s.s3, s.s0, k.s1),
          EncWord(s.s2, s.s3, s.s0, s.s1, k.s2), EncWord(s.s3, s.s0, s.s1, s.s2, k.s3))
  }

  function EncLastWord(a: Word, b: Word, c: Word, d: Word, k: Word): Word {
    Xor(Sum4(Mask3(Te4(a.b3)), Mask2(Te4(b.b2)),
             Mask1(Te4(c.b1)), Mask0(Te4(d.b0))), k)
  }

  function EncLast(s: Block, k: Block): Block {
    Block(EncLastWord(s.s0, s.s1, s.s2, s.s3, k.s0), EncLastWord(s.s1, s.s2, s.s3, s.s0, k.s1),
          EncLastWord(s.s2, s.s3, s.s0, s.s1, k.s2), EncLastWord(s.s3, s.s0, s.s1, s.s2, k.s3))
  }

  function DecWord(a: Word, b: Word, c: Word, d: Word, k: Word): Word {
    Xor(Sum4(Td0(a.b3), Td1(b.b2), Td2(c.b1), Td3(d.b0)), k)
  }

  function DecRound(s: Block, k: Block): Block {
    Block(DecWord(s.s0, s.s3, s.s2, s.s1, k.s0), DecWord(s.s1, s.s0, s.s3, s.s2, k.s1),
          DecWord(s.s2, s.s1, s.s0, s.s3, k.s2), DecWord(s.s3, s.s2, s.s1, s.s0, k.s3))
  }

  function DecLastWord(a: Word, b: Word, c: Word, d: Word, k: Word): Word {
    Xor(Sum4(Mask3(Td4(a.b3)), Mask2(Td4(b.b2)),
             Mask1(Td4(c.b1)), Mask0(Td4(d.b0))), k)
  }

  function DecLast(s: Block, k: Block): Block {
    Block(DecLastWord(s.s0, s.s3, s.s2, s.s1, k.s0), DecLastWord(s.s1, s.s0, s.s3, s.s2, k.s1),
          DecLastWord(s.s2, s.s1, s.s0, s.s3, k.s2), DecLastWord(s.s3, s.s2, s.s1, s.s0, k.s3))
  }

  /** Round key i of a schedule. */
  function Key(rk: seq<Word>, i: nat): Block
    requires 4 * i + 4 <= |rk|
  {
    Block(rk[4 * i], rk[4 * i + 1], rk[4 * i + 2], rk[4 * i + 3])
  }

  /** The cipher state after the initial key and i full rounds. */
  function EncState(p: Block, rk: seq<Word>, i: nat): Block
    requires 4 * i + 4 <= |rk|
  {
    if i == 0 then AddKey(p, Key(rk, 0)) else EncRound(EncState(p, rk, i - 1), Key(rk, i))
  }

  function DecState(c: Block, rk: seq<Word>, i: nat): Block
    requires 4 * i + 4 <= |rk|
  {
    if i == 0 then AddKey(c, Key(rk, 0)) else DecRound(DecState(c, rk, i - 1), Key(rk, i))
  }

  function Encrypt(p: Block, rk: seq<Word>, nrounds: nat): Block
    requires nrounds > 0 && 4 * nrounds + 4 <= |rk|
  {
    EncLast(EncState(p, rk, nrounds - 1), Key(rk, nrounds))
  }

  function Decrypt(c: Block, rk: seq<Word>, nrounds: nat): Block
    requires nrounds > 0 && 4 * nrounds + 4 <= |rk|
  {
    DecLast(DecState(c, rk, nrounds - 1), Key(rk, nrounds))
  }

  // ---------------------------------------------------------------- the column algebra

  /** SubBytes and ShiftRows on a state, and their inverse. */
  function SubShift(s: Block): Block {
    Block(SubWords(s.s0, s.s1, s.s2, s.s3), SubWords(s.s1, s.s2, s.s3, s.s0),
          SubWords(s.s2, s.s3, s.s0, s.s1), SubWords(s.s3, s.s0, s.s1, s.s2))
  }

  function SubWords(a: Word, b: Word, c: Word, d: Word): Word {
    Word(SBox(a.b3), SBox(b.b2), SBox(c.b1), SBox(d.b0))
  }

  function InvSubShift(s: Block): Block {
    Block(InvSubWords(s.s0, s.s3, s.s2, s.s1), InvSubWords(s.s1, s.s0, s.s3, s.s2),
          InvSubWords(s.s2, s.s1, s.s0, s.s3), InvSubWords(s.s3, s.s2, s.s1, s.s0))
  }

  function InvSubWords(a: Word, b: Word, c: Word, d: Word): Word {
    Word(InvSBox(a.b3), InvSBox(b.b2), InvSBox(c.b1), InvSBox(d.b0))
  }

  /** MixColumns and InvMixColumns on one column. */
  function Mix(w: Word): Word { Sum4(Mix0(w.b3), Mix1(w.b2), Mix2(w.b1), Mix3(w.b0)) }
  function Unmix(w: Word): Word { Sum4(Unmix0(w.b3), Unmix1(w.b2), Unmix2(w.b1), Unmix3(w.b0)) }

  function MixBlock(s: Block): Block { Block(Mix(s.s0), Mix(s.s1), Mix(s.s2), Mix(s.s3)) }
  function UnmixBlock(s: Block): Block { Block(Unmix(s.s0), Unmix(s.s1), Unmix(s.s2), Unmix(s.s3)) }


  lemma XorBytes(v: Word, w: Word)
    ensures Xor(v, w).b3 == Add(v.b3, w.b3) && Xor(v, w).b2 == Add(v.b2, w.b2)
    ensures Xor(v, w).b1 == Add(v.b1, w.b1) && Xor(v, w).b0 == Add(v.b0, w.b0)
  {}

  lemma XtimeAdd(a: bv8, b: bv8)
    ensures Xtime(Add(a, b)) == Add(Xtime(a), Xtime(b))
  {}

  lemma AddLaws(a: bv8, b: bv8, c: bv8)
    ensures Add(a, b) == Add(b, a) && Add(Add(a, b), c) == Add(a, Add(b, c))
  {}

  lemma AddSwap(a: bv8, b: bv8, c: bv8, d: bv8)
    ensures Add(Add(a, b), Add(c, d)) == Add(Add(a, c), Add(b, d))
  {
    hide Add;
    AddLaws(a, b, Add(c, d));
    AddLaws(b, c, d);
    AddLaws(c, b, d);
    AddLaws(a, c, Add(b, d));
  }

  lemma XorLaws(a: Word, b: Word, c: Word)
    ensures Xor(a, b) == Xor(b, a) && Xor(Xor(a, b), c) == Xor(a, Xor(b, c))
  {}

  lemma XorSwap(a: Word, b: Word, c: Word, d: Word)
    ensures Xor(Xor(a, b), Xor(c, d)) == Xor(Xor(a, c), Xor(b, d))
  {
    hide Xor;
    XorLaws(a, b, Xor(c, d));
    XorLaws(b, c, d);
    XorLaws(c, b, d);
    XorLaws(a, c, Xor(b, d));
  }

  lemma XorCancel(a: Word, k: Word)
    ensures Xor(Xor(a, k), k) == a
  {}

  lemma WordXor(a: bv8, b: bv8, c: bv8, d: bv8, p: bv8, q: bv8, r: bv8, s: bv8)
    ensures Word(Add(a, p), Add(b, q), Add(c, r), Add(d, s)) == Xor(Word(a, b, c, d), Word(p, q, r, s))
  {}

  lemma Sum4Xor(a: Word, b: Word, c: Word, d: Word, p: Word, q: Word, r: Word, s: Word)
    ensures Sum4(Xor(a, p), Xor(b, q), Xor(c, r), Xor(d, s)) == Xor(Sum4(a, b, c, d), Sum4(p, q, r, s))
  {
    hide Xor;
    XorSwap(a, p, b, q);
    XorSwap(Xor(a, b), Xor(p, q), c, r);
    XorSwap(Xor(Xor(a, b), c), Xor(Xor(p, q), r), d, s);
  }

  /** Multiplication by a constant is linear over exclusive or. */
  lemma MulAdd(a: bv8, b: bv8)
    ensures Mul9(Add(a, b)) == Add(Mul9(a), Mul9(b)) && Mul11(Add(a, b)) == Add(Mul11(a), Mul11(b))
    ensures Mul13(Add(a, b)) == Add(Mul13(a), Mul13(b)) && Mul14(Add(a, b)) == Add(Mul14(a), Mul14(b))
  {
    hide Xtime, Add;
    var a1, b1 := Xtime(a), Xtime(b);
    var a2, b2 := Xtime(a1), Xtime(b1);
    var a3, b3 := Xtime(a2), Xtime(b2);
    XtimeAdd(a, b);
    XtimeAdd(a1, b1);
    XtimeAdd(a2, b2);
    AddSwap(a3, a, b3, b);
    AddSwap(Mul9(a), a1, Mul9(b), b1);
    AddSwap(Mul9(a), a2, Mul9(b), b2);
    AddSwap(a3, a2, b3, b2);
    AddSwap(Add(a3, a2), a1, Add(b3, b2), b1);
  }

  lemma UnmixByteAdd(a: bv8, b: bv8)
    ensures Unmix0(Add(a, b)) == Xor(Unmix0(a), Unmix0(b)) && Unmix1(Add(a, b)) == Xor(Unmix1(a), Unmix1(b))
    ensures Unmix2(Add(a, b)) == Xor(Unmix2(a), Unmix2(b)) && Unmix3(Add(a, b)) == Xor(Unmix3(a), Unmix3(b))
  {
    hide Mul9, Mul11, Mul13, Mul14, Add, Xor;
    MulAdd(a, b);
    WordXor(Mul14(a), Mul9(a), Mul13(a), Mul11(a), Mul14(b), Mul9(b), Mul13(b), Mul11(b));
    WordXor(Mul11(a), Mul14(a), Mul9(a), Mul13(a), Mul11(b), Mul14(b), Mul9(b), Mul13(b));
    WordXor(Mul13(a), Mul11(a), Mul14(a), Mul9(a), Mul13(b), Mul11(b), Mul14(b), Mul9(b));
    WordXor(Mul9(a), Mul13(a), Mul11(a), Mul14(a), Mul9(b), Mul13(b), Mul11(b), Mul14(b));
  }

  /** InvMixColumns is linear over exclusive or. */
  lemma UnmixXor(v: Word, w: Word)
    ensures Unmix(Xor(v, w)) == Xor(Unmix(v), Unmix(w))
  {
    hide Unmix0, Unmix1, Unmix2, Unmix3, Sum4, Xor, Add;
    XorBytes(v, w);
    UnmixByteAdd(v.b3, w.b3);
    UnmixByteAdd(v.b2, w.b2);
    UnmixByteAdd(v.b1, w.b1);
    UnmixByteAdd(v.b0, w.b0);
    Sum4Xor(Unmix0(v.b3), Unmix1(v.b2), Unmix2(v.b1), Unmix3(v.b0),
            Unmix0(w.b3), Unmix1(w.b2), Unmix2(w.b1), Unmix3(w.b0));
  }

  // InvMixColumns undoes MixColumns on a column with one non-zero byte ...
  lemma UnmixMix0(b: bv8) ensures Unmix(Mix0(b)) == Word(b, 0, 0, 0) {}
  lemma UnmixMix1(b: bv8) ensures Unmix(Mix1(b)) == Word(0, b, 0, 0) {}
  lemma UnmixMix2(b: bv8) ensures Unmix(Mix2(b)) == Word(0, 0, b, 0) {}
  lemma UnmixMix3(b: bv8) ensures Unmix(Mix3(b)) == Word(0, 0, 0, b) {}

  lemma WordSum(a: bv8, b: bv8, c: bv8, d: bv8)
    ensures Sum4(Word(a, 0, 0, 0), Word(0, b, 0, 0), Word(0, 0, c, 0), Word(0, 0, 0, d)) == Word(a, b, c, d)
  {}

  /** ... and, being linear, on every column. */
  lemma UnmixMix(w: Word)
    ensures Unmix(Mix(w)) == w
  {
    var a, b, c, d := w.b3, w.b2, w.b1, w.b0;
    hide Mix0, Mix1, Mix2, Mix3, Unmix, Xor;
    UnmixXor(Xor(Xor(Mix0(a), Mix1(b)), Mix2(c)), Mix3(d));
    UnmixXor(Xor(Mix0(a), Mix1(b)), Mix2(c));
    UnmixXor(Mix0(a), Mix1(b));
    UnmixMix0(a);
    UnmixMix1(b);
    UnmixMix2(c);
    UnmixMix3(d);
    WordSum(a, b, c, d);
  }

  // ---------------------------------------------------------------- one round, undone

  // The table entries of a full round are SubBytes followed by a column of MixColumns.
  lemma EncWordShape(a: Word, b: Word, c: Word, d: Word, k: Word)
    ensures EncWord(a, b, c, d, k) == Xor(Mix(SubWords(a, b, c, d)), k)
  {
    hide Mix0, Mix1, Mix2, Mix3, Sum4, Xor, SBox;
  }

  lemma DecWordShape(a: Word, b: Word, c: Word, d: Word, k: Word)
    ensures DecWord(a, b, c, d, k) == Xor(Unmix(InvSubWords(a, b, c, d)), k)
  {
    hide Unmix0, Unmix1, Unmix2, Unmix3, Sum4, Xor, InvSBox;
  }

  lemma Masks(a: bv8, b: bv8, c: bv8, d: bv8)
    ensures Sum4(Mask3(Word(a, a, a, a)), Mask2(Word(b, b, b, b)),
                 Mask1(Word(c, c, c, c)), Mask0(Word(d, d, d, d))) == Word(a, b, c, d)
  {}

  lemma EncLastWordShape(a: Word, b: Word, c: Word, d: Word, k: Word)
    ensures EncLastWord(a, b, c, d, k) == Xor(SubWords(a, b, c, d), k)
  {
    hide Sum4, Xor, SBox;
    Masks(SBox(a.b3), SBox(b.b2), SBox(c.b1), SBox(d.b0));
  }

  lemma EncRoundShape(s: Block, k: Block)
    ensures EncRound(s, k) == AddKey(MixBlock(SubShift(s)), k)
    ensures EncLast(s, k) == AddKey(SubShift(s), k)
  {
    hide EncWord, EncLastWord, Mix, SubWords, Xor;
    EncWordShape(s.s0, s.s1, s.s2, s.s3, k.s0);
    EncWordShape(s.s1, s.s2, s.s3, s.s0, k.s1);
    EncWordShape(s.s2, s.s3, s.s0, s.s1, k.s2);
    EncWordShape(s.s3, s.s0, s.s1, s.s2, k.s3);
    EncLastWordShape(s.s0, s.s1, s.s2, s.s3, k.s0);
    EncLastWordShape(s.s1, s.s2, s.s3, s.s0, k.s1);
    EncLastWordShape(s.s2, s.s3, s.s0, s.s1, k.s2);
    EncLastWordShape(s.s3, s.s0, s.s1, s.s2, k.s3);
  }

  lemma DecLastWordShape(a: Word, b: Word, c: Word, d: Word, k: Word)
    ensures DecLastWord(a, b, c, d, k) == Xor(InvSubWords(a, b, c, d), k)
  {
    hide Sum4, Xor, InvSBox;
    Masks(InvSBox(a.b3), InvSBox(b.b2), InvSBox(c.b1), InvSBox(d.b0));
  }

  lemma DecRoundShape(s: Block, k: Block)
    ensures DecRound(s, k) == AddKey(UnmixBlock(InvSubShift(s)), k)
    ensures DecLast(s, k) == AddKey(InvSubShift(s), k)
  {
    hide DecWord, DecLastWord, Unmix, InvSubWords, Xor;
    DecWordShape(s.s0, s.s3, s.s2, s.s1, k.s0);
    DecWordShape(s.s1, s.s0, s.s3, s.s2, k.s1);
    DecWordShape(s.s2, s.s1, s.s0, s.s3, k.s2);
    DecWordShape(s.s3, s.s2, s.s1, s.s0, k.s3);
    DecLastWordShape(s.s0, s.s3, s.s2, s.s1, k.s0);
    DecLastWordShape(s.s1, s.s0, s.s3, s.s2, k.s1);
    DecLastWordShape(s.s2, s.s1, s.s0, s.s3, k.s2);
    DecLastWordShape(s.s3, s.s2, s.s1, s.s0, k.s3);
  }

  lemma SubWordsBytes(a: Word, b: Word, c: Word, d: Word)
    ensures var w := SubWords(a, b, c, d);
            && InvSBox(w.b3) == a.b3 && InvSBox(w.b2) == b.b2
            && InvSBox(w.b1) == c.b1 && InvSBox(w.b0) == d.b0
  {
    hide SBox, InvSBox;
    SBoxInverse(a.b3);
    SBoxInverse(b.b2);
    SBoxInverse(c.b1);
    SBoxInverse(d.b0);
  }

  lemma InvSubShiftSubShift(s: Block)
    ensures InvSubShift(SubShift(s)) == s
  {
    hide SubWords, SBox, InvSBox;
    SubWordsBytes(s.s0, s.s1, s.s2, s.s3);
    SubWordsBytes(s.s1, s.s2, s.s3, s.s0);
    SubWordsBytes(s.s2, s.s3, s.s0, s.s1);
    SubWordsBytes(s.s3, s.s0, s.s1, s.s2);
  }

  lemma UnmixKeyed(w: Word, k: Word)
    ensures Xor(Unmix(Xor(Mix(w), k)), Unmix(k)) == w
  {
    hide Mix, Unmix, Xor;
    UnmixXor(Mix(w), k);
    UnmixMix(w);
    XorCancel(w, Unmix(k));
  }

  /** A decryption round with the transformed key takes the substituted output of an
      encryption round back to the substituted input of that round. */
  lemma RoundUndone(y: Block, k: Block)
    ensures DecRound(SubShift(EncRound(y, k)), UnmixBlock(k)) == SubShift(y)
  {
    hide EncRound, DecRound, SubShift, InvSubShift, Mix, Unmix, Xor;
    DecRoundShape(SubShift(EncRound(y, k)), UnmixBlock(k));
    InvSubShiftSubShift(EncRound(y, k));
    EncRoundShape(y, k);
    var x := SubShift(y);
    UnmixKeyed(x.s0, k.s0);
    UnmixKeyed(x.s1, k.s1);
    UnmixKeyed(x.s2, k.s2);
    UnmixKeyed(x.s3, k.s3);
  }

  lemma AddKeyTwice(s: Block, k: Block)
    ensures AddKey(AddKey(s, k), k) == s
  {
    hide Xor;
    XorCancel(s.s0, k.s0);
    XorCancel(s.s1, k.s1);
    XorCancel(s.s2, k.s2);
    XorCancel(s.s3, k.s3);
  }

  // ---------------------------------------------------------------- the whole cipher

  /** dk is the decryption schedule for ek: round keys in reverse order, all but the
      first and the last passed through InvMixColumns. */
  ghost predicate Inverts(dk: seq<Word>, ek: seq<Word>, nrounds: nat) {
    && 4 * nrounds + 4 <= |ek| && 4 * nrounds + 4 <= |dk|
    && (forall i: nat {:trigger Key(dk, i)} | i <= nrounds ::
          Key(dk, i) == if 0 < i < nrounds then UnmixBlock(Key(ek, nrounds - i)) else Key(ek, nrounds - i))
  }

  /** After i decryption rounds the state is the substituted encryption state with i
      full rounds fewer. */
  lemma {:induction false} StatesMeet(p: Block, ek: seq<Word>, dk: seq<Word>, nrounds: nat, i: nat)
    requires nrounds > 0 && Inverts(dk, ek, nrounds) && i < nrounds
    ensures DecState(Encrypt(p, ek, nrounds), dk, i) == SubShift(EncState(p, ek, nrounds - 1 - i))
    decreases i
  {
    hide EncRound, DecRound, SubShift, AddKey, UnmixBlock, EncLast, Key;
    if i == 0 {
      EncRoundShape(EncState(p, ek, nrounds - 1), Key(ek, nrounds));
      assert Key(dk, 0) == Key(ek, nrounds);
      AddKeyTwice(SubShift(EncState(p, ek, nrounds - 1)), Key(ek, nrounds));
    } else {
      StatesMeet(p, ek, dk, nrounds, i - 1);
      var y := EncState(p, ek, nrounds - 1 - i);
      assert EncState(p, ek, nrounds - i) == EncRound(y, Key(ek, nrounds - i));
      assert Key(dk, i) == UnmixBlock(Key(ek, nrounds - i));
      RoundUndone(y, Key(ek, nrounds - i));
    }
  }

  /** The equivalent inverse cipher undoes the cipher for every schedule it is derived from. */
  lemma DecryptEncrypt(p: Block, ek: seq<Word>, dk: seq<Word>, nrounds: nat)
    requires nrounds > 0 && Inverts(dk, ek, nrounds)
    ensures Decrypt(Encrypt(p, ek, nrounds), dk, nrounds) == p
  {
    hide EncRound, DecRound, SubShift, InvSubShift, AddKey, UnmixBlock, EncLast, DecLast, Key;
    StatesMeet(p, ek, dk, nrounds, nrounds - 1);
    var x := AddKey(p, Key(ek, 0));
    DecRoundShape(SubShift(x), Key(dk, nrounds));
    InvSubShiftSubShift(x);
    assert Key(dk, nrounds) == Key(ek, 0);
    AddKeyTwice(p, Key(ek, 0));
  }
}
