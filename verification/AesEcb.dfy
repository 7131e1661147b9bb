/** The buffer layer of crypto/aes.h: electronic code book mode with byte padding. */
module AesEcb {
  import opened Seqs
  import opened Aes
  import opened AesKeys

  const BLOCK_SIZE := 16

  function Fill(c: int): (s: seq<bv8>)
    requires 0 <= c <= 16
    ensures |s| == c
  {
    seq(c, _ => c as bv8)
  }

  /** A message with its padding: to the next multiple of the block size, always at least
      one byte, each byte the number of bytes added. The empty message is left empty. */
  function Pad(m: seq<bv8>): (p: seq<bv8>)
    ensures |p| % 16 == 0
    ensures |p| == if m == [] then 0 else 16 * (|m| / 16 + 1)
  {
    if m == [] then [] else m + Fill(16 - |m| % 16)
  }

  function EncryptAll(p: seq<bv8>, ek: seq<Word>): (c: seq<bv8>)
    requires |p| % 16 == 0 && |ek| == 44
    ensures |c| == |p|
  {
    if p == [] then [] else EncryptBytes(p[..16], ek, 10) + EncryptAll(p[16..], ek)
  }

  function DecryptAll(c: seq<bv8>, dk: seq<Word>): (p: seq<bv8>)
    requires |c| % 16 == 0 && |dk| == 44
    ensures |p| == |c|
  {
    if c == [] then [] else DecryptBytes(c[..16], dk, 10) + DecryptAll(c[16..], dk)
  }

  /** The message inside a decrypted buffer, or nothing when its last byte is no padding. */
  datatype Unpadded = Message(m: seq<bv8>) | Bogus

  function Unpad(p: seq<bv8>): Unpadded {
    if p == [] then Message([])
    else
      var padlen := p[|p| - 1] as int;
      if 1 <= padlen <= 16 && padlen <= |p| then Message(p[..|p| - padlen]) else Bogus
  }

  function Ciphertext(input: seq<bv8>, password: seq<bv8>): (c: seq<bv8>)
    requires |password| >= 16
    ensures |c| == if input == [] then 0 else 16 * (|input| / 16 + 1)
  {
    EncryptAll(Pad(input), EncSchedule(password[..16], 128))
  }

  function Plaintext(input: seq<bv8>, password: seq<bv8>): Unpadded
    requires |password| >= 16
  {
    if |input| % 16 != 0 then Bogus
    else Unpad(DecryptAll(input, DecSchedule(EncSchedule(password[..16], 128), 10)))
  }

  // The next block the encryptor takes from what is left of the message.
  lemma PadChunk(rest: seq<bv8>)
    requires rest != []
    ensures |rest| < 16 ==> Pad(rest) == rest + Fill(16 - |rest|)
    ensures |rest| == 16 ==> Pad(rest) == rest + Fill(16)
    ensures |rest| > 16 ==> Pad(rest) == rest[..16] + Pad(rest[16..])
  {
    hide Fill;
    if |rest| > 16 {
      var tail := rest[16..];
      assert |tail| % 16 == |rest| % 16 && tail != [];
      var fill := Fill(16 - |rest| % 16);
      assert Pad(rest) == rest + fill && Pad(tail) == tail + fill;
      Halves(rest[..16], tail);
      assert rest == rest[..16] + tail;
      Assoc(rest[..16], tail, fill);
    }
  }

  lemma EncryptBlock(a: seq<bv8>, b: seq<bv8>, ek: seq<Word>)
    requires |a| == 16 && |b| % 16 == 0 && |ek| == 44
    ensures EncryptAll(a + b, ek) == EncryptBytes(a, ek, 10) + EncryptAll(b, ek)
  {
    hide EncryptBytes;
    assert (a + b)[..16] == a && (a + b)[16..] == b;
  }

  // What the encryptor has to write for the message that is left at offset i.
  lemma EncryptRest(input: seq<bv8>, i: nat, ek: seq<Word>)
    requires i < |input| && |ek| == 44
    ensures var j := if |input| - i < 16 then |input| - i else 16;
            var first := EncryptBytes(input[i..i + j] + Fill(16 - j), ek, 10);
            EncryptAll(Pad(input[i..]), ek)
            == if i + j < |input| then first + EncryptAll(Pad(input[i + j..]), ek)
               else if j == 16 then first + EncryptBytes(Fill(16), ek, 10)
               else first
  {
    hide EncryptBytes, EncryptAll, Pad, Fill;
    var rest := input[i..];
    PadChunk(rest);
    EncryptNothing(ek);
    if |rest| < 16 {
      EncryptBlock(Pad(rest), [], ek);
      assert Pad(rest) + [] == Pad(rest) && input[i..i + |rest|] == rest;
    } else if |rest| == 16 {
      assert rest + Fill(0) == rest && Fill(16) + [] == Fill(16) && input[i..i + 16] == rest;
      EncryptBlock(rest, Fill(16), ek);
      EncryptBlock(Fill(16), [], ek);
    } else {
      assert input[i..i + 16] + Fill(0) == rest[..16] && rest[16..] == input[i + 16..];
      EncryptBlock(rest[..16], Pad(rest[16..]), ek);
    }
  }

  // The same behind what is done.
  lemma EncryptMore(input: seq<bv8>, i: nat, ek: seq<Word>, done: seq<bv8>, c: seq<bv8>)
    requires i < |input| && |ek| == 44 && c == done + EncryptAll(Pad(input[i..]), ek)
    ensures var j := if |input| - i < 16 then |input| - i else 16;
            var first := EncryptBytes(input[i..i + j] + Fill(16 - j), ek, 10);
            c == if i + j < |input| then done + first + EncryptAll(Pad(input[i + j..]), ek)
                 else if j == 16 then done + first + EncryptBytes(Fill(16), ek, 10)
                 else done + first
  {
    hide EncryptBytes, EncryptAll, Pad, Fill;
    EncryptRest(input, i, ek);
    var j := if |input| - i < 16 then |input| - i else 16;
    var first := EncryptBytes(input[i..i + j] + Fill(16 - j), ek, 10);
    if i + j < |input| {
      Assoc(done, first, EncryptAll(Pad(input[i + j..]), ek));
    } else if j == 16 {
      Assoc(done, first, EncryptBytes(Fill(16), ek, 10));
    }
  }

  lemma EncryptNothing(ek: seq<Word>)
    requires |ek| == 44
    ensures Pad([]) == [] && EncryptAll([], ek) == []
  {}

  /** The buffer holds the bytes done so far, and what it held before after them. */
  ghost predicate Holds(buffer: seq<bv8>, done: seq<bv8>, was: seq<bv8>) {
    |done| <= |was| && buffer == done + was[|done|..]
  }

  lemma HoldsNothing(was: seq<bv8>)
    ensures Holds(was, [], was)
  {}

  /** Copies s into output behind what is done. */
  method Store(output: array<bv8>, o: nat, s: seq<bv8>, ghost done: seq<bv8>, ghost was: seq<bv8>)
    requires |done| == o && |was| == output.Length && o + |s| <= output.Length && Holds(output[..], done, was)
    modifies output
    ensures Holds(output[..], done + s, was)
  {
    assert forall k | o <= k < output.Length :: output[k] == was[k];
    forall k | 0 <= k < |s| {
      output[o + k] := s[k];
    }
  }

  /** Encrypts one block into the output if there is room for it. */
  method PutBlock(output: array<bv8>, outlen: nat, o: nat, plaintext: seq<bv8>, ek: seq<Word>,
        ghost done: seq<bv8>, ghost was: seq<bv8>)
      returns (ok: bool)
    requires |done| == o <= outlen <= output.Length == |was| && Holds(output[..], done, was)
    requires |plaintext| == 16 && |ek| == 44
    modifies output
    ensures ok == (outlen - o >= BLOCK_SIZE)
    ensures ok ==> Holds(output[..], done + EncryptBytes(plaintext, ek, 10), was)
  {
    hide EncryptBytes, Holds;
    var ciphertext := DoEncrypt(ek, 10, plaintext);
    if outlen - o < BLOCK_SIZE {
      return false;
    }
    Store(output, o, ciphertext, done, was);
    return true;
  }

  /** aesEncrypt: writes the ciphertext to the front of output and returns its length, or
      returns -1 when it does not fit in outlen bytes. */
  method Encrypt(output: array<bv8>, outlen: nat, input: seq<bv8>, password: seq<bv8>) returns (written: int)
    requires outlen <= output.Length && |password| >= 16
    modifies output
    ensures var c := Ciphertext(input, password);
            if |c| <= outlen then written == |c| && Holds(output[..], c, old(output[..])) else written == -1
  {
    hide EncSchedule, EncryptBytes, EncryptAll, Pad, Fill, Holds;
    var schedule := new Word[44];
    var _ := SetupEncrypt(schedule, password[..16], 128);
    var ek := schedule[..];
    assert ek == schedule[..44] == EncSchedule(password[..16], 128);
    ghost var c, was, done := Ciphertext(input, password), output[..], [];
    EncryptNothing(ek);
    HoldsNothing(was);
    var i, o := 0, 0;
    while i < |input|
      invariant 0 <= i <= |input| && |done| == o <= outlen && Holds(output[..], done, was)
      invariant i < |input| ==> o == i && c == done + EncryptAll(Pad(input[i..]), ek)
      invariant i == |input| ==> c == done
    {
      var j := if |input| - i < BLOCK_SIZE then |input| - i else BLOCK_SIZE;
      var plaintext := input[i..i + j] + Fill(BLOCK_SIZE - j);
      EncryptMore(input, i, ek, done, c);
      i := i + j;
      var ok := PutBlock(output, outlen, o, plaintext, ek, done, was);
      if !ok {
        return -1;
      }
      o, done := o + BLOCK_SIZE, done + EncryptBytes(plaintext, ek, 10);
      if j == BLOCK_SIZE && i == |input| {
        // a full last block: one more block of padding follows
        ok := PutBlock(output, outlen, o, Fill(BLOCK_SIZE), ek, done, was);
        if !ok {
          return -1;
        }
        o, done := o + BLOCK_SIZE, done + EncryptBytes(Fill(BLOCK_SIZE), ek, 10);
      }
    }
    return o;
  }

  lemma DecryptBlock(a: seq<bv8>, b: seq<bv8>, dk: seq<Word>)
    requires |a| == 16 && |b| % 16 == 0 && |dk| == 44
    ensures DecryptAll(a + b, dk) == DecryptBytes(a, dk, 10) + DecryptAll(b, dk)
  {
    hide DecryptBytes;
    assert (a + b)[..16] == a && (a + b)[16..] == b;
  }

  lemma DecryptNothing(dk: seq<Word>)
    requires |dk| == 44
    ensures DecryptAll([], dk) == [] && Unpad([]) == Message([])
  {}

  // What the last block of a decrypted buffer, and any earlier one, say about the message.
  lemma UnpadLast(done: seq<bv8>, last: seq<bv8>)
    requires |last| == 16
    ensures var padlen := last[15] as int;
            Unpad(done + last) == if 1 <= padlen <= 16 then Message(done + last[..16 - padlen]) else Bogus
  {
    var p, padlen := done + last, last[15] as int;
    if 1 <= padlen <= 16 {
      assert p[..|p| - padlen] == done + last[..16 - padlen];
    }
  }

  lemma UnpadLong(p: seq<bv8>)
    ensures Unpad(p).Message? ==> |Unpad(p).m| + 16 >= |p|
  {}

  /** The last decrypted block without its padding, if that is sound and there is room. */
  method PutLast(output: array<bv8>, outlen: nat, o: nat, plaintext: seq<bv8>,
                 ghost done: seq<bv8>, ghost was: seq<bv8>)
      returns (datalen: int)
    requires |done| == o <= outlen <= output.Length == |was| && Holds(output[..], done, was) && |plaintext| == 16
    modifies output
    ensures var padlen := plaintext[15] as int;
            if 1 <= padlen <= 16 && outlen - o >= 16 - padlen
            then datalen == 16 - padlen && Holds(output[..], done + plaintext[..datalen], was)
            else datalen == -1
  {
    hide Holds;
    var padlen := plaintext[BLOCK_SIZE - 1] as int;
    if padlen < 1 || padlen > 16 {
      return -1;
    }
    datalen := BLOCK_SIZE - padlen;
    if outlen - o < datalen {
      return -1;
    }
    Store(output, o, plaintext[..datalen], done, was);
  }

  // One more block of a whole number of blocks.
  lemma DecryptRest(rest: seq<bv8>, dk: seq<Word>, done: seq<bv8>, plaintext: seq<bv8>, p: seq<bv8>)
    requires |rest| >= 16 && |rest| % 16 == 0 && |dk| == 44
    requires plaintext == DecryptBytes(rest[..16], dk, 10) && p == done + DecryptAll(rest, dk)
    ensures p == done + plaintext + DecryptAll(rest[16..], dk)
    ensures |rest| == 16 ==> p == done + plaintext
  {
    hide DecryptBytes, DecryptAll, Unpad;
    var tail := rest[16..];
    assert rest == rest[..16] + tail;
    DecryptBlock(rest[..16], tail, dk);
    Assoc(done, plaintext, DecryptAll(tail, dk));
    if |rest| == 16 {
      DecryptNothing(dk);
      assert tail == [];
      NothingBehind(done + plaintext);
    }
  }

  /** What is done at offset i of a message of whole blocks, p being all of it decrypted. */
  ghost predicate Progress(input: seq<bv8>, i: nat, dk: seq<Word>, done: seq<bv8>, p: seq<bv8>)
    requires i <= |input| && (|input| - i) % 16 == |input| % 16 && |dk| == 44
  {
    |input| % 16 == 0 ==>
      if i < |input| then |done| == i && p == done + DecryptAll(input[i..], dk) else Unpad(p) == Message(done)
  }

  /** One more block, the last one or not. */
  lemma DecryptTurn(input: seq<bv8>, i: nat, dk: seq<Word>, done: seq<bv8>, p: seq<bv8>, plaintext: seq<bv8>)
    requires i + 16 <= |input| && (|input| - i) % 16 == |input| % 16 && |dk| == 44 && Progress(input, i, dk, done, p)
    requires plaintext == DecryptBytes(input[i..i + 16], dk, 10)
    ensures (|input| - (i + 16)) % 16 == |input| % 16
    ensures i + 16 < |input| ==> Progress(input, i + 16, dk, done + plaintext, p)
    ensures i + 16 < |input| && |input| % 16 == 0 && Unpad(p).Message? ==> |Unpad(p).m| >= |done| + 16
    ensures i + 16 == |input| && |input| % 16 == 0 ==>
              var padlen := plaintext[15] as int;
              Unpad(p) == if 1 <= padlen <= 16 then Message(done + plaintext[..16 - padlen]) else Bogus
  {
    hide DecryptBytes, DecryptAll, Unpad;
    assert input[i..][..16] == input[i..i + 16] && input[i..][16..] == input[i + 16..];
    if |input| % 16 == 0 {
      DecryptRest(input[i..], dk, done, plaintext, p);
      UnpadLast(done, plaintext);
      UnpadLong(p);
    }
  }

  lemma ProgressStart(input: seq<bv8>, dk: seq<Word>) returns (p: seq<bv8>)
    requires |dk| == 44
    ensures |input| % 16 == 0 ==> p == DecryptAll(input, dk)
    ensures Progress(input, 0, dk, [], p)
  {
    hide DecryptAll, Unpad;
    p := if |input| % 16 == 0 then DecryptAll(input, dk) else [];
    DecryptNothing(dk);
  }

  lemma PlaintextIs(input: seq<bv8>, password: seq<bv8>, dk: seq<Word>)
    requires |password| >= 16 && dk == DecSchedule(EncSchedule(password[..16], 128), 10)
    ensures Plaintext(input, password) == if |input| % 16 != 0 then Bogus else Unpad(DecryptAll(input, dk))
  {
    hide EncSchedule, DecSchedule, DecryptAll, Unpad;
  }

  /** aesDecrypt: writes the message to the front of output and returns its length, or
      returns -1 for a length that is no multiple of the block size, for a last byte that
      is no padding, and for a message longer than outlen. */
  method Decrypt(output: array<bv8>, outlen: nat, input: seq<bv8>, password: seq<bv8>) returns (written: int)
    requires outlen <= output.Length && |password| >= 16
    modifies output
    ensures match Plaintext(input, password)
            case Bogus => written == -1
            case Message(m) =>
              if |m| <= outlen then written == |m| && Holds(output[..], m, old(output[..])) else written == -1
  {
    hide EncSchedule, DecSchedule, DecryptBytes, DecryptAll, Holds, Unpad, Plaintext, Progress;
    ghost var was, done := output[..], [];
    var schedule := new Word[44];
    var nrounds := SetupDecrypt(schedule, password[..16], 128);
    var dk := schedule[..];
    assert dk == schedule[..44] == DecSchedule(EncSchedule(password[..16], 128), 10);
    PlaintextIs(input, password, dk);
    ghost var p := ProgressStart(input, dk);
    HoldsNothing(was);
    var i, o := 0, 0;
    while i < |input|
      invariant 0 <= i <= |input| && o <= outlen && (|input| - i) % 16 == |input| % 16
      invariant |done| == o && |was| == output.Length && Holds(output[..], done, was)
      invariant Progress(input, i, dk, done, p)
    {
      if |input| - i < BLOCK_SIZE {
        return -1;
      }
      var plaintext := DoDecrypt(dk, nrounds, input[i..i + BLOCK_SIZE]);
      DecryptTurn(input, i, dk, done, p, plaintext);
      i := i + BLOCK_SIZE;
      if |input| - i < BLOCK_SIZE {
        var datalen := PutLast(output, outlen, o, plaintext, done, was);
        if datalen < 0 {
          return -1;
        }
        o, done := o + datalen, done + plaintext[..datalen];
        assert Progress(input, i, dk, done, p) by { ProgressEnd(input, i, dk, done, p); }
      } else {
        if outlen - o < BLOCK_SIZE {
          return -1;
        }
        Store(output, o, plaintext, done, was);
        o, done := o + BLOCK_SIZE, done + plaintext;
      }
    }
    ProgressAll(input, dk, done, p);
    return o;
  }

  lemma ProgressEnd(input: seq<bv8>, i: nat, dk: seq<Word>, done: seq<bv8>, p: seq<bv8>)
    requires i <= |input| < i + 16 && (|input| - i) % 16 == |input| % 16 && |dk| == 44
    requires |input| % 16 == 0 ==> Unpad(p) == Message(done)
    ensures Progress(input, i, dk, done, p)
  {}

  lemma ProgressAll(input: seq<bv8>, dk: seq<Word>, done: seq<bv8>, p: seq<bv8>)
    requires 0 == |input| % 16 && |dk| == 44 && Progress(input, |input|, dk, done, p)
    ensures Unpad(p) == Message(done)
  {}

  // ---------------------------------------------------------------- round trip

  lemma {:induction false} AllRoundTrip(p: seq<bv8>, password: seq<bv8>)
    requires |p| % 16 == 0 && |password| >= 16
    ensures var ek := EncSchedule(password[..16], 128);
            DecryptAll(EncryptAll(p, ek), DecSchedule(ek, 10)) == p
    decreases |p|
  {
    hide EncSchedule, DecSchedule, EncryptBytes, DecryptBytes;
    if p != [] {
      var ek := EncSchedule(password[..16], 128);
      BlockRoundTrip(password[..16], 128, p[..16]);
      AllRoundTrip(p[16..], password);
      DecryptBlock(EncryptBytes(p[..16], ek, 10), EncryptAll(p[16..], ek), DecSchedule(ek, 10));
    }
  }

  lemma LastFill(m: seq<bv8>, c: nat)
    requires 1 <= c <= 16
    ensures var p := m + Fill(c);
            p[|p| - 1] == c as bv8 && p[..|p| - c] == m
  {
    hide Fill;
    var p := m + Fill(c);
    FillAt(c, c - 1);
    assert p[|p| - 1] == Fill(c)[c - 1];
  }

  lemma FillAt(c: nat, k: nat)
    requires k < c <= 16
    ensures Fill(c)[k] == c as bv8
  {}

  lemma ByteBack(c: nat)
    requires c <= 16
    ensures (c as bv8) as int == c
  {}

  lemma UnpadPad(m: seq<bv8>)
    ensures Unpad(Pad(m)) == Message(m)
  {
    if m != [] {
      var p, c := Pad(m), 16 - |m| % 16;
      LastFill(m, c);
      ByteBack(c);
    }
  }

  /** The padding: 1 to 16 bytes, each of them their number. */
  lemma PadIs(m: seq<bv8>, k: nat)
    requires m != [] && k < |Pad(m)|
    ensures 1 <= |Pad(m)| - |m| <= 16
    ensures if k < |m| then Pad(m)[k] == m[k] else Pad(m)[k] as int == |Pad(m)| - |m|
  {
    hide Fill;
    var c := 16 - |m| % 16;
    if k >= |m| {
      FillAt(c, k - |m|);
      ByteBack(c);
    }
  }

  /** Of the padding only the last byte is looked at: it must be a number from 1 to 16, and
      that many bytes are removed. */
  lemma UnpadIff(p: seq<bv8>, m: seq<bv8>)
    ensures Unpad(p) == Message(m) <==>
              || p == m == []
              || (1 <= |p| - |m| <= 16 && p[..|m|] == m && p[|p| - 1] as int == |p| - |m|)
  {}

  /** Electronic code book: block k of the output is block k of the input, encrypted. */
  lemma {:induction false} BlocksApart(p: seq<bv8>, ek: seq<Word>, k: nat)
    requires |p| % 16 == 0 && |ek| == 44 && 16 * k + 16 <= |p|
    ensures EncryptAll(p, ek)[16 * k..16 * k + 16] == EncryptBytes(p[16 * k..16 * k + 16], ek, 10)
  {
    hide EncryptBytes;
    var first, rest := EncryptBytes(p[..16], ek, 10), EncryptAll(p[16..], ek);
    if k == 0 {
      assert (first + rest)[..16] == first;
    } else {
      BlocksApart(p[16..], ek, k - 1);
      assert p[16..][16 * (k - 1)..16 * k] == p[16 * k..16 * k + 16];
      assert (first + rest)[16 * k..16 * k + 16] == rest[16 * (k - 1)..16 * k];
    }
  }

  /** aesDecrypt recovers from the output of aesEncrypt the bytes and the length of every
      message, the empty one and the multiples of the block size included. */
  lemma RoundTrip(input: seq<bv8>, password: seq<bv8>)
    requires |password| >= 16
    ensures Plaintext(Ciphertext(input, password), password) == Message(input)
  {
    hide EncSchedule, DecSchedule, EncryptAll, DecryptAll, Pad, Unpad;
    AllRoundTrip(Pad(input), password);
    UnpadPad(input);
  }

  /** The two calls of the usage example of the library, one after the other. */
  method EncryptThenDecrypt(input: seq<bv8>, password: seq<bv8>, cipherbuf: array<bv8>, plainbuf: array<bv8>)
      returns (written: int)
    requires |password| >= 16 && cipherbuf != plainbuf
    requires |input| + 16 <= cipherbuf.Length && |input| <= plainbuf.Length
    modifies cipherbuf, plainbuf
    ensures written == |input| && plainbuf[..written] == input
  {
    hide EncSchedule, DecSchedule, EncryptAll, DecryptAll, Pad, Unpad, Ciphertext, Plaintext;
    var n := Encrypt(cipherbuf, cipherbuf.Length, input, password);
    RoundTrip(input, password);
    assert cipherbuf[..n] == Ciphertext(input, password);
    written := Decrypt(plainbuf, plainbuf.Length, cipherbuf[..n], password);
  }
}
