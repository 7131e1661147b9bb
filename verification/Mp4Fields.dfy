/** What stands in the boxes of a written index, word by word: the layouts of version 0 of
    ISO/IEC 14496-12 and 14496-15, read back by position from the boxes that the size fields
    mark off. */
module Mp4Fields {
  import opened Seqs
  import opened Wrappers
  import opened Bits
  import opened Mp4Bytes
  import opened Mp4Boxes
  import opened Mp4Tree

  /** Whole words, each of four bytes, most significant first. */
  function Words(s: seq<Byte>): (w: seq<nat>)
    ensures |w| == |s| / 4
  {
    if |s| < 4 then [] else [Value32(s[..4])] + Words(s[4..])
  }

  function Half(s: seq<Byte>, pos: nat): nat
    requires pos + 2 <= |s|
  {
    s[pos] as nat * 256 + s[pos + 1]
  }

  /** A box of this type, given as the number its four characters make. */
  predicate Is(b: seq<Byte>, kind: nat) {
    |b| >= 8 && Value32(b[4..8]) == kind
  }

  // ---------------------------------------------------------------- what a reader expects

  predicate SaysMvhd(b: seq<Byte>, tracks: seq<Indexed>)
    requires Indexable(tracks)
  {
    && Is(b, 0x6d76_6864)
    && (tracks != [] ==>
          Words(b[8..]) == [0, 0, 0, 1000, TotalTime(tracks[0].smpl) % WORD * 1000 / tracks[0].info.timeScale % WORD,
                            0x1_0000, 0x100_0000, 0, 0, 0x1_0000, 0, 0, 0, 0x1_0000, 0, 0, 0, 0x4000_0000,
                            0, 0, 0, 0, 0, 0, (|tracks| + 1) % WORD])
  }

  /** The durations of all samples together. */
  function TotalTime(smpl: seq<Sample>): nat {
    if smpl == [] then 0 else smpl[0].duration + TotalTime(smpl[1..])
  }

  predicate SaysTkhd(b: seq<Byte>, t: Indexed, id: nat)
    requires t.info.timeScale > 0
  {
    var i := t.info;
    && Is(b, 0x746b_6864)
    && Words(b[8..]) == [7, 0, 0, id % WORD, 0, TotalTime(t.smpl) % WORD * 1000 / i.timeScale % WORD, 0, 0, 0,
                         0x100_0000, 0x1_0000, 0, 0, 0, 0x1_0000, 0, 0, 0, 0x4000_0000]
                      + if i.media == Video then [i.width % 0x1_0000 * 0x1_0000, i.height % 0x1_0000 * 0x1_0000]
                        else [0, 0]
  }

  predicate SaysMdhd(b: seq<Byte>, t: Indexed)
    requires |t.info.language| >= 3
  {
    var l := t.info.language;
    && Is(b, 0x6d64_6864)
    && Words(b[8..]) == [0, 0, 0, t.info.timeScale % WORD, TotalTime(t.smpl) % WORD,
                         (l[0] as int % 32 * 1024 + l[1] as int % 32 * 32 + l[2] as int % 32) * 0x1_0000]
  }

  predicate SaysHdlr(b: seq<Byte>, m: Media) {
    && Is(b, 0x6864_6c72) && |b| >= 32
    && Words(b[8..32]) == [0, 0,
                           match m case Audio => 0x736f_756e case Video => 0x7669_6465 case Private => 0x6765_736d,
                           0, 0, 0]
    && b[32..] == match m
                  case Audio => [0x53, 0x6f, 0x75, 0x6e, 0x64, 0x48, 0x61, 0x6e, 0x64, 0x6c, 0x65, 0x72, 0]
                  case Video => [0x56, 0x69, 0x64, 0x65, 0x6f, 0x48, 0x61, 0x6e, 0x64, 0x6c, 0x65, 0x72, 0]
                  case Private => [0, 0, 0, 0]
  }

  predicate SaysMediaHeader(boxes: seq<seq<Byte>>, m: Media) {
    match m
    case Audio => |boxes| == 1 && Is(boxes[0], 0x736d_6864) && Words(boxes[0][8..]) == [0, 0]
    case Video => |boxes| == 1 && Is(boxes[0], 0x766d_6864) && Words(boxes[0][8..]) == [1, 0, 0]
    case Private => boxes == []
  }

  /** One data reference, to the file itself. */
  predicate SaysDinf(b: seq<Byte>) {
    && Is(b, 0x6469_6e66)
    && var inner := Children(Body(b));
    && |inner| == 1 && Is(inner[0], 0x6472_6566) && |inner[0]| >= 16 && Words(inner[0][8..16]) == [0, 1]
    && var refs := Children(inner[0][16..]);
    && |refs| == 1 && Is(refs[0], 0x7572_6c20) && Words(refs[0][8..]) == [1]
  }

  // ---------------------------------------------------------------- words of what is written

  lemma {:induction false} WordsJoin(a: seq<Byte>, b: seq<Byte>)
    requires |a| % 4 == 0
    ensures Words(a + b) == Words(a) + Words(b)
  {
    hide Value32;
    if a == [] {
      assert a + b == b;
    } else {
      assert (a + b)[..4] == a[..4] && (a + b)[4..] == a[4..] + b;
      WordsJoin(a[4..], b);
    }
  }

  lemma WordOf(x: int)
    ensures Words(U32(x)) == [x % WORD]
  {
    hide Value32, U32;
    Value32OfU32(x);
    assert U32(x)[..4] == U32(x) && U32(x)[4..] == [];
  }

  lemma WordOfPair(a: int, b: int)
    ensures Words(U16(a) + U16(b)) == [a % 0x1_0000 * 0x1_0000 + b % 0x1_0000]
  {
    var s := U16(a) + U16(b);
    assert s[..4] == s && s[4..] == [];
    Digits(a, 256);
    Digits(b, 256);
    PairValue(a);
    PairValue(b);
  }

  lemma PairValue(a: int)
    ensures a / 0x100 % 256 * 256 + a % 256 == a % 0x1_0000
  {
    Digits(a / 0x100, 256);
    Digits(a, 256);
    Digits(a, 0x1_0000);
    assert a / 0x100 / 256 == a / 0x1_0000;
  }

  /** n words of zeros. */
  function Nulls(n: nat): (w: seq<nat>)
    ensures |w| == n && forall i | 0 <= i < n :: w[i] == 0
  {
    if n == 0 then [] else [0] + Nulls(n - 1)
  }

  lemma {:induction false} WordsOfZeros(n: nat)
    ensures Words(ZeroBytes(4 * n)) == Nulls(n)
  {
    if n > 0 {
      var z := ZeroBytes(4 * n);
      assert z[..4] == [0, 0, 0, 0] && z[4..] == ZeroBytes(4 * (n - 1));
      WordsOfZeros(n - 1);
    }
  }

  lemma FullWords(kind: seq<Byte>, flags: nat, content: seq<Byte>)
    requires |kind| == 4
    ensures var b := FullBox(kind, flags, content);
            Is(b, Value32(kind)) && b[12..] == content && Words(b[8..]) == [flags % WORD] + Words(content)
  {
    hide U32, Value32;
    var b := FullBox(kind, flags, content);
    assert b[4..8] == kind && b[8..] == U32(flags) + content;
    WordsJoin(U32(flags), content);
    WordOf(flags);
  }

  lemma {:induction false} TotalSnoc(smpl: seq<Sample>, s: Sample)
    ensures TotalTime(smpl + [s]) == TotalTime(smpl) + s.duration
  {
    if smpl == [] {
      assert smpl + [s] == [s] && [s][1..] == [];
    } else {
      assert (smpl + [s])[1..] == smpl[1..] + [s];
      TotalSnoc(smpl[1..], s);
    }
  }

  lemma {:induction false} SumIs(smpl: seq<Sample>)
    ensures Sum(smpl) == TotalTime(smpl) && Duration(smpl) == TotalTime(smpl) % WORD
  {
    if smpl != [] {
      var n := |smpl| - 1;
      SumIs(smpl[..n]);
      TotalSnoc(smpl[..n], smpl[n]);
      assert smpl[..n] + [smpl[n]] == smpl;
    }
  }

  // ---------------------------------------------------------------- headers

  lemma MatrixWords()
    ensures Words(Matrix()) == [0x1_0000, 0, 0, 0, 0x1_0000, 0, 0, 0, 0x4000_0000]
  {
    hide U32, Words;
    var one, z := U32(0x1_0000), ZeroBytes(12);
    WordOf(0x1_0000);
    WordOf(0x4000_0000);
    ThreeNulls();
    WordsJoin(one, z);
    WordsJoin(one + z, one);
    WordsJoin(one + z + one, z);
    WordsJoin(one + z + one + z, U32(0x4000_0000));
  }

  lemma ThreeNulls()
    ensures Words(ZeroBytes(4)) == [0] && Words(ZeroBytes(8)) == [0, 0] && Words(ZeroBytes(12)) == [0, 0, 0]
    ensures Words(ZeroBytes(24)) == [0, 0, 0, 0, 0, 0]
  {
    WordsOfZeros(1);
    WordsOfZeros(2);
    WordsOfZeros(3);
    WordsOfZeros(6);
  }

  /** The contents of mvhd when there are tracks. */
  function Movie(ms: nat, next: nat): seq<Byte> {
    ZeroBytes(8) + (U32(1000) + U32(ms)) + U32(0x1_0000) + U16(0x100) + ZeroBytes(10) + Matrix() + ZeroBytes(24)
      + U32(next)
  }

  lemma MvhdSays(tracks: seq<Indexed>)
    requires Indexable(tracks)
    ensures SaysMvhd(Mvhd(tracks), tracks)
  {
    hide Words, FullBox, Encodable, Duration, Movie, Mvhd, Millis, TotalTime, Value32;
    MvhdIs(tracks);
    if tracks != [] {
      var ms := Millis(Duration(tracks[0].smpl), tracks[0].info.timeScale);
      Milliseconds(tracks[0]);
      MvhdFull(ms, |tracks| + 1);
    }
  }

  lemma MvhdFull(ms: nat, next: nat)
    ensures Words(FullBox(MVHD, 0, Movie(ms, next))[8..])
         == [0, 0, 0, 1000, ms % WORD, 0x1_0000, 0x100_0000, 0, 0, 0x1_0000, 0, 0, 0, 0x1_0000, 0, 0, 0, 0x4000_0000,
             0, 0, 0, 0, 0, 0, next % WORD]
  {
    hide Words, FullBox, Movie, Value32;
    MvhdWords(ms, next);
    FullWords(MVHD, 0, Movie(ms, next));
  }

  lemma Milliseconds(t: Indexed)
    requires t.info.timeScale > 0
    ensures var ms := Millis(Duration(t.smpl), t.info.timeScale);
            ms == TotalTime(t.smpl) % WORD * 1000 / t.info.timeScale % WORD && ms % WORD == ms
  {
    SumIs(t.smpl);
  }

  lemma MvhdIs(tracks: seq<Indexed>)
    requires Indexable(tracks)
    ensures Is(Mvhd(tracks), 0x6d76_6864)
    ensures tracks != [] ==>
              Mvhd(tracks)
                == FullBox(MVHD, 0, Movie(Millis(Duration(tracks[0].smpl), tracks[0].info.timeScale), |tracks| + 1))
  {
    hide U32, U16, Words, Matrix, FullBox, Encodable, Duration, Millis;
    FullWords(MVHD, 0, ZeroBytes(8)
      + (if tracks == [] then [] else U32(1000) + U32(Millis(Duration(tracks[0].smpl), tracks[0].info.timeScale)))
      + U32(0x1_0000) + U16(0x100) + ZeroBytes(10) + Matrix() + ZeroBytes(24) + U32(|tracks| + 1));
  }

  lemma MvhdWords(ms: nat, next: nat)
    ensures Words(Movie(ms, next))
         == [0, 0, 1000, ms % WORD, 0x1_0000, 0x100_0000, 0, 0, 0x1_0000, 0, 0, 0, 0x1_0000, 0, 0, 0, 0x4000_0000,
             0, 0, 0, 0, 0, 0, next % WORD]
  {
    hide U32, U16, Words, Matrix;
    var times, volume := U32(1000) + U32(ms), U16(0x100) + ZeroBytes(10);
    ThreeNulls();
    MatrixWords();
    VolumeWords();
    WordOf(1000);
    WordOf(ms);
    WordOf(0x1_0000);
    WordOf(next);
    var a := ZeroBytes(8) + times;
    WordsJoin(U32(1000), U32(ms));
    WordsJoin(ZeroBytes(8), times);
    var b := a + U32(0x1_0000);
    WordsJoin(a, U32(0x1_0000));
    Assoc(b, U16(0x100), ZeroBytes(10));
    WordsJoin(b, volume);
    WordsJoin(b + volume, Matrix());
    WordsJoin(b + volume + Matrix(), ZeroBytes(24));
    WordsJoin(b + volume + Matrix() + ZeroBytes(24), U32(next));
  }

  lemma VolumeWords()
    ensures Words(U16(0x100) + ZeroBytes(10)) == [0x100_0000, 0, 0]
  {
    var a := U16(0x100) + U16(0);
    WordOfPair(0x100, 0);
    WordsOfZeros(2);
    WordsJoin(a, ZeroBytes(8));
    assert U16(0x100) + ZeroBytes(10) == a + ZeroBytes(8);
  }

  lemma TkhdSays(t: Indexed, id: nat)
    requires Encodable(t)
    ensures SaysTkhd(Tkhd(t, id), t, id)
  {
    hide U32, Words, FullBox, Duration, TrackShape, TrackTimes;
    SumIs(t.smpl);
    TimesWords(t, id);
    ShapeWords(t.info);
    WordsJoin(TrackTimes(t, id), TrackShape(t.info));
    FullWords(TKHD, 7, TrackTimes(t, id) + TrackShape(t.info));
  }

  lemma TimesWords(t: Indexed, id: nat)
    requires Encodable(t)
    ensures Words(TrackTimes(t, id)) == [0, 0, id % WORD, 0, Millis(Duration(t.smpl), t.info.timeScale)]
  {
    hide U32, Words, Duration;
    var ms := Millis(Duration(t.smpl), t.info.timeScale);
    ThreeNulls();
    WordOf(id);
    WordOf(ms);
    WordsJoin(ZeroBytes(8), U32(id));
    WordsJoin(ZeroBytes(8) + U32(id), ZeroBytes(4));
    WordsJoin(ZeroBytes(8) + U32(id) + ZeroBytes(4), U32(ms));
  }

  lemma ShapeWords(i: Info)
    ensures Words(TrackShape(i)) == [0, 0, 0, 0x100_0000, 0x1_0000, 0, 0, 0, 0x1_0000, 0, 0, 0, 0x4000_0000]
              + if i.media == Video then [i.width % 0x1_0000 * 0x1_0000, i.height % 0x1_0000 * 0x1_0000] else [0, 0]
  {
    hide U32, U16, Words, Matrix;
    var z, pair := ZeroBytes(12), U16(0x100) + U16(0);
    var size := U32(i.width * 0x1_0000) + U32(i.height * 0x1_0000);
    ThreeNulls();
    MatrixWords();
    WordOf(i.width * 0x1_0000);
    WordOf(i.height * 0x1_0000);
    WordOfPair(0x100, 0);
    Shifted(i.width);
    Shifted(i.height);
    Assoc(z, U16(0x100), U16(0));
    WordsJoin(z, pair);
    WordsJoin(z + pair, Matrix());
    WordsJoin(U32(i.width * 0x1_0000), U32(i.height * 0x1_0000));
    WordsJoin(z + pair + Matrix(), if i.media == Video then size else ZeroBytes(8));
  }

  lemma Shifted(x: nat)
    ensures x * 0x1_0000 % WORD == x % 0x1_0000 * 0x1_0000
  {
    Digits(x, 0x1_0000);
    assert x * 0x1_0000 == WORD * (x / 0x1_0000) + x % 0x1_0000 * 0x1_0000;
  }

  lemma MdhdSays(t: Indexed)
    requires Encodable(t)
    ensures SaysMdhd(Mdhd(t), t)
  {
    hide U32, U16, Words, FullBox, Duration;
    SumIs(t.smpl);
    ThreeNulls();
    WordOf(t.info.timeScale);
    WordOf(Duration(t.smpl));
    WordOfPair(Language(t.info.language), 0);
    var a, b, c := ZeroBytes(8), U32(t.info.timeScale), U32(Duration(t.smpl));
    WordsJoin(a, b);
    WordsJoin(a + b, c);
    Assoc(a + b + c, U16(Language(t.info.language)), U16(0));
    WordsJoin(a + b + c, U16(Language(t.info.language)) + U16(0));
    FullWords(MDHD, 0, a + b + c + (U16(Language(t.info.language)) + U16(0)));
  }

  lemma HdlrSays(m: Media)
    ensures SaysHdlr(Hdlr(m), m)
  {
    hide U32, Words, FullBox;
    HandlerWords(HandlerType(m));
    FullFront(HDLR, 0, ZeroBytes(4) + U32(HandlerType(m)) + ZeroBytes(12), HandlerName(m));
  }

  lemma HandlerWords(x: nat)
    requires x < WORD
    ensures Words(ZeroBytes(4) + U32(x) + ZeroBytes(12)) == [0, x, 0, 0, 0]
  {
    hide U32, Words;
    ThreeNulls();
    WordOf(x);
    WordsJoin(ZeroBytes(4), U32(x));
    WordsJoin(ZeroBytes(4) + U32(x), ZeroBytes(12));
  }

  /** The first words of a full box, and what is behind them. */
  lemma FullFront(kind: seq<Byte>, flags: nat, front: seq<Byte>, rest: seq<Byte>)
    requires |kind| == 4 && |front| % 4 == 0
    ensures var b := FullBox(kind, flags, front + rest);
            && Is(b, Value32(kind)) && |b| == 12 + |front| + |rest| && b[12 + |front|..] == rest
            && Words(b[8..12 + |front|]) == [flags % WORD] + Words(front)
  {
    hide Value32, U32;
    var b := FullBox(kind, flags, front + rest);
    FullWords(kind, flags, front + rest);
    assert b == U32(12 + |front| + |rest|) + (kind + U32(flags)) + (front + rest);
    assert b[8..12 + |front|] == U32(flags) + front;
    WordsJoin(U32(flags), front);
    WordOf(flags);
    assert b[12..][|front|..] == b[12 + |front|..];
  }

  lemma MediaHeaderSays(m: Media)
    ensures SaysMediaHeader(Optional(MediaHeader(m)), m)
  {
    hide U32, Words, FullBox;
    ThreeNulls();
    FullWords(SMHD, 0, ZeroBytes(4));
    FullWords(VMHD, 1, ZeroBytes(8));
  }

  lemma DinfSays()
    ensures SaysDinf(Dinf())
  {
    hide U32, Words, FullBox, Box, Value32, Sized, SizedWide, Children, Cat;
    var url, one := FullBox(URL, 1, []), U32(1);
    var dref := FullBox(DREF, 0, one + url);
    FullWords(URL, 1, []);
    WordOf(1);
    FullFront(DREF, 0, one, url);
    DinfSizes();
    KindNumbers();
    BodyOfBox(DINF, dref);
    OneChild(dref);
    OneChild(url);
    BoxKind(DINF, dref);
    assert url[8..] == url[8..];
    assert Words([]) == [];
  }

  lemma DinfSizes()
    ensures Sized(FullBox(URL, 1, [])) && Sized(FullBox(DREF, 0, U32(1) + FullBox(URL, 1, [])))
  {
    hide Sized, U32;
    FullBoxSized(URL, 1, []);
    FullBoxSized(DREF, 0, U32(1) + FullBox(URL, 1, []));
  }

  lemma OneChild(b: seq<Byte>)
    requires Sized(b)
    ensures Children(b) == [b]
  {
    hide Sized, SizedWide, Children, Cat;
    CatOne(b);
    ChildrenOfCat([b]);
  }

  lemma BoxKind(kind: seq<Byte>, content: seq<Byte>)
    requires |kind| == 4
    ensures Is(Box(kind, content), Value32(kind))
  {
    hide U32, Value32;
    assert Box(kind, content)[4..8] == kind;
  }

  lemma KindNumbers()
    ensures Value32(DINF) == 0x6469_6e66 && Value32(DREF) == 0x6472_6566 && Value32(URL) == 0x7572_6c20
    ensures Value32(TRAK) == 0x7472_616b && Value32(MDIA) == 0x6d64_6961 && Value32(MINF) == 0x6d69_6e66
    ensures Value32(STBL) == 0x7374_626c && Value32(MOOV) == 0x6d6f_6f76
  {}

  // ---------------------------------------------------------------- sample entries

  /** The sample entry: none, one of an audio or private track, or one of an H.264 track. */
  predicate SaysEntries(entries: seq<seq<Byte>>, t: Indexed)
    requires Encodable(t)
  {
    if t.info.media == Video && t.info.objectType != 0x21 then entries == []
    else |entries| == 1 && if t.info.media == Video then SaysVideo(entries[0], t) else SaysAudio(entries[0], t)
  }

  predicate SaysAudio(b: seq<Byte>, t: Indexed)
    requires Encodable(t) && t.info.media != Video
  {
    var i, n := t.info, if t.info.media == Audio then 36 else 16;
    && Is(b, if i.media == Audio then 0x6d70_3461 else 0x6d70_3473) && |b| >= n
    && Words(b[8..n]) == [0, 1] + (if i.media == Audio
                                   then [0, 0, i.channels % 0x1_0000 * 0x1_0000 + 16, 0,
                                         i.timeScale % 0x1_0000 * 0x1_0000]
                                   else [])
    && var inner := Children(b[n..]);
    |inner| == 1 && SaysEsds(inner[0], t)
  }

  predicate SaysEsds(b: seq<Byte>, t: Indexed)
    requires Encodable(t) && t.info.media != Video
  {
    Is(b, 0x6573_6473) && |b| >= 12 && Words(b[8..12]) == [0] && SaysDescriptors(b[12..], t)
  }

  /** The descriptors, as far as their lengths have one byte each. */
  predicate SaysDescriptors(d: seq<Byte>, t: Indexed)
    requires Encodable(t) && t.info.media != Video
  {
    if t.vsps == [] then d == []
    else
      var n, rate := |t.vsps| - 2, t.info.channels * 6144 / 8;
      n <= 107 ==>
        d == [3, n + 20, 0, 0, 0]
             + [4, n + 15, if t.info.media == Audio then 0x40 else 208, if t.info.media == Audio then 20 else 128,
                rate / 0x1_0000 % 256, rate / 0x100 % 256, rate % 256, 0, 0, 0, 0, 0, 0, 0, 0]
             + ([5, n] + t.vsps[2..])
  }

  predicate SaysVideo(b: seq<Byte>, t: Indexed)
    requires Encodable(t) && t.info.media == Video && t.info.objectType == 0x21
  {
    && Is(b, 0x6176_6331) && |b| >= 86
    && Words(b[8..84]) == [0, 1, 0, 0, 0, 0, t.info.width % 0x1_0000 * 0x1_0000 + t.info.height % 0x1_0000,
                           0x48_0000, 0x48_0000, 0, 0x1_0000, 0, 0, 0, 0, 0, 0, 0, 24]
    && Half(b, 84) == 0xffff
    && var inner := Children(b[86..]);
    |inner| == 1 && SaysAvc(inner[0], t.vsps)
  }

  predicate SaysAvc(b: seq<Byte>, vsps: seq<Byte>)
    requires |vsps| >= 6
  {
    && Is(b, 0x6176_6343) && |b| >= 14 + |vsps|
    && b[8..13] == [1, vsps[3], vsps[4], vsps[5], 0xff] && b[13] / 32 == 7 && b[14..14 + |vsps|] == vsps
  }

  lemma DescriptorsSay(t: Indexed)
    requires Encodable(t) && t.info.media != Video
    ensures SaysDescriptors(if t.vsps == [] then [] else Descriptors(t), t)
  {
    if t.vsps != [] && |t.vsps| <= 109 {
      ShortDescriptors(t, |t.vsps| - 2);
    }
  }

  lemma ShortDescriptors(t: Indexed, n: nat)
    requires Encodable(t) && t.info.media != Video && |t.vsps| == n + 2 <= 109
    ensures SaysDescriptors(Descriptors(t), t)
  {
    hide EsDescriptor, DecoderConfig, SpecificInfo, OdRest, OdLength;
    OneByteLength(n);
    OneByteLength(n + 15);
    EsIs(n + 20);
    ConfigIs(t, n + 15);
    InfoIs(t.vsps[2..]);
  }

  lemma EsIs(size: nat)
    requires size <= 127
    ensures EsDescriptor(size) == [3, size, 0, 0, 0]
  {
    hide OdLength;
    OneByteLength(size);
  }

  lemma ConfigIs(t: Indexed, size: nat)
    requires size <= 127
    ensures var rate, audio := t.info.channels * 6144 / 8, t.info.media == Audio;
            DecoderConfig(t, size)
            == [4, size, if audio then 0x40 else 208, if audio then 20 else 128,
                rate / 0x1_0000 % 256, rate / 0x100 % 256, rate % 256, 0, 0, 0, 0, 0, 0, 0, 0]
  {
    hide OdLength;
    OneByteLength(size);
  }

  lemma InfoIs(dsi: seq<Byte>)
    requires |dsi| <= 127
    ensures SpecificInfo(dsi) == [5, |dsi|] + dsi
  {
    hide OdLength, OdRest;
    OneByteLength(|dsi|);
    assert dsi[..|dsi|] == dsi;
  }

  lemma OneByteLength(n: nat)
    requires n <= 127
    ensures OdLength(n) == [n] && OdRest(n) == n
  {}

  lemma AudioWords(i: Info)
    requires i.media != Video
    ensures Words(AudioFields(i)) == [0, 1] + (if i.media == Audio
                                               then [0, 0, i.channels % 0x1_0000 * 0x1_0000 + 16, 0,
                                                     i.timeScale % 0x1_0000 * 0x1_0000]
                                               else [])
  {
    hide U32, U16, Words;
    ReferenceWords();
    var front := ZeroBytes(6) + U16(1);
    if i.media == Audio {
      var pair, rate := U16(i.channels) + U16(16), U32(i.timeScale * 0x1_0000);
      ThreeNulls();
      WordOfPair(i.channels, 16);
      WordOf(i.timeScale * 0x1_0000);
      Shifted(i.timeScale);
      Assoc(ZeroBytes(8), U16(i.channels), U16(16));
      WordsJoin(ZeroBytes(8), pair);
      WordsJoin(ZeroBytes(8) + pair, ZeroBytes(4));
      WordsJoin(ZeroBytes(8) + pair + ZeroBytes(4), rate);
      WordsJoin(front, ZeroBytes(8) + pair + ZeroBytes(4) + rate);
    } else {
      NothingBehind(front);
    }
  }

  lemma ReferenceWords()
    ensures Words(ZeroBytes(6) + U16(1)) == [0, 1]
  {
    var z, pair := ZeroBytes(4), U16(0) + U16(1);
    WordsOfZeros(1);
    WordOfPair(0, 1);
    WordsJoin(z, pair);
    assert ZeroBytes(6) + U16(1) == z + pair;
  }

  /** The front of a box, and the boxes behind it. */
  lemma BoxFront(kind: seq<Byte>, front: seq<Byte>, inner: seq<Byte>)
    requires |kind| == 4 && Sized(inner)
    ensures var b := Box(kind, front + inner);
            && Is(b, Value32(kind)) && |b| == 8 + |front| + |inner| && b[8..8 + |front|] == front
            && Children(b[8 + |front|..]) == [inner]
  {
    hide U32, Value32, Sized, Children;
    var b := Box(kind, front + inner);
    BoxKind(kind, front + inner);
    assert b == U32(8 + |front + inner|) + kind + (front + inner);
    assert b[8 + |front|..] == inner;
    OneChild(inner);
  }

  lemma AudioSays(t: Indexed)
    requires Encodable(t) && t.info.media != Video && |AudioEntry(t)| < WORD
    ensures SaysAudio(AudioEntry(t), t)
  {
    hide Words, Box, AudioFields, Esds, Encodable, Value32, SaysEsds, Sized, Children;
    EsdsSays(t);
    AudioWords(t.info);
    BoxFront(if t.info.media == Audio then MP4A else MP4S, AudioFields(t.info), Esds(t));
    EntryKinds();
  }

  lemma EsdsSays(t: Indexed)
    requires Encodable(t) && t.info.media != Video && |Esds(t)| < WORD
    ensures SaysEsds(Esds(t), t) && Sized(Esds(t))
  {
    hide Words, FullBox, Descriptors, Encodable, Value32, SaysDescriptors, Sized;
    var d := if t.vsps == [] then [] else Descriptors(t);
    FullFront(ESDS, 0, [], d);
    NothingBehind(d);
    FullBoxSized(ESDS, 0, d);
    DescriptorsSay(t);
    EntryKinds();
    NoWords();
  }

  lemma NoWords()
    ensures Words([]) == []
  {}

  lemma EntryKinds()
    ensures Value32(MP4A) == 0x6d70_3461 && Value32(MP4S) == 0x6d70_3473 && Value32(ESDS) == 0x6573_6473
    ensures Value32(AVC1) == 0x6176_6331 && Value32(AVCC) == 0x6176_6343
  {}

  lemma VisualWords(i: Info)
    ensures var s := VisualSize(i) + VisualRest();
            && Words(s[..76])
                 == [0, 1, 0, 0, 0, 0, i.width % 0x1_0000 * 0x1_0000 + i.height % 0x1_0000,
                     0x48_0000, 0x48_0000, 0, 0x1_0000, 0, 0, 0, 0, 0, 0, 0, 24]
            && Half(s, 76) == 0xffff
  {
    hide U32, Words;
    ReferenceWords();
    WordsOfZeros(4);
    WordOfPair(i.width, i.height);
    var front, pair := ZeroBytes(6) + U16(1), U16(i.width) + U16(i.height);
    WordsJoin(front, ZeroBytes(16));
    Assoc(front + ZeroBytes(16), U16(i.width), U16(i.height));
    WordsJoin(front + ZeroBytes(16), pair);
    RestWords();
    var s := VisualSize(i) + VisualRest();
    assert s[..76] == VisualSize(i) + VisualRest()[..48];
    WordsJoin(VisualSize(i), VisualRest()[..48]);
    assert s[76] == VisualRest()[48] && s[77] == VisualRest()[49];
  }

  lemma RestWords()
    ensures Words(VisualRest()[..48]) == [0x48_0000, 0x48_0000, 0, 0x1_0000, 0, 0, 0, 0, 0, 0, 0, 24]
    ensures VisualRest()[48] == 0xff && VisualRest()[49] == 0xff
  {
    hide Words;
    var r, d := U32(0x48_0000), U32(0x48_0000) + U32(0x48_0000);
    WordOf(0x48_0000);
    WordsOfZeros(1);
    WordsOfZeros(7);
    WordOfPair(1, 0);
    WordOfPair(0, 24);
    WordsJoin(r, r);
    WordsJoin(d, ZeroBytes(4));
    WordsJoin(d + ZeroBytes(4), U16(1) + U16(0));
    var e := d + ZeroBytes(4) + (U16(1) + U16(0));
    WordsJoin(e, ZeroBytes(28));
    WordsJoin(e + ZeroBytes(28), U16(0) + U16(24));
    assert VisualRest()[..48] == e + ZeroBytes(28) + (U16(0) + U16(24));
  }

  lemma VideoSays(t: Indexed)
    requires Encodable(t) && t.info.media == Video && t.info.objectType == AVC && |VideoEntry(t)| < WORD
    ensures SaysVideo(VideoEntry(t), t)
  {
    hide Words, Box, VisualSize, VisualRest, Value32, Sized, Half, AvcConfig, SaysAvc, Children;
    var front, b := VisualSize(t.info) + VisualRest(), VideoEntry(t);
    AvcSays(t);
    BoxFront(AVC1, front, AvcConfig(t));
    VisualWords(t.info);
    EntryKinds();
    assert b[8..84] == b[8..86][..76];
    HalfInside(b, front);
  }

  lemma AvcSays(t: Indexed)
    requires |t.vsps| >= 6 && |AvcConfig(t)| < WORD
    ensures SaysAvc(AvcConfig(t), t.vsps) && Sized(AvcConfig(t))
  {
    hide Box, Value32, Sized, Items;
    var record := [1, t.vsps[3], t.vsps[4], t.vsps[5], 255, 0xe0 + Items(t.vsps, 0) % 32] + t.vsps
      + U8(Items(t.vpps, 0)) + t.vpps;
    BoxSized(AVCC, record);
    BoxKind(AVCC, record);
    BodyOfBox(AVCC, record);
    AvcBytes(AvcConfig(t), t, record);
    EntryKinds();
  }

  lemma HalfInside(b: seq<Byte>, front: seq<Byte>)
    requires |b| >= 86 && |front| == 78 && b[8..86] == front
    ensures Half(b, 84) == Half(front, 76)
  {
    assert front[76] == b[84] && front[77] == b[85];
  }

  lemma AvcBytes(b: seq<Byte>, t: Indexed, record: seq<Byte>)
    requires |t.vsps| >= 6 && |b| == 8 + |record| && b[8..] == record && |record| >= 6 + |t.vsps|
    requires record[..6] == [1, t.vsps[3], t.vsps[4], t.vsps[5], 255, 0xe0 + Items(t.vsps, 0) % 32]
    requires record[6..6 + |t.vsps|] == t.vsps
    ensures b[8..13] == [1, t.vsps[3], t.vsps[4], t.vsps[5], 0xff] && b[13] / 32 == 7
    ensures b[14..14 + |t.vsps|] == t.vsps
  {
    hide Items;
    assert b[8..13] == record[..6][..5] && b[13] == record[..6][5];
    Inner(b, 8, |b|, 6, 6 + |t.vsps|);
    assert b[8..|b|] == record;
  }

  // ---------------------------------------------------------------- sample tables

  /** The list of random access points: strictly ascending, and exactly the numbers, from 1, of
      the samples marked. */
  ghost predicate SyncList(list: seq<nat>, smpl: seq<Sample>) {
    && (forall i, j | 0 <= i < j < |list| :: list[i] < list[j])
    && (forall n | n in list :: 1 <= n <= |smpl| && smpl[n - 1].sync)
    && (forall i | 0 <= i < |smpl| && smpl[i].sync :: i + 1 in list)
  }

  /** stss stands at the end unless every sample is a random access point. */
  ghost predicate SaysSync(rest: seq<seq<Byte>>, smpl: seq<Sample>) {
    if forall i | 0 <= i < |smpl| :: smpl[i].sync then rest == []
    else
      && |rest| == 1 && Is(rest[0], 0x7374_7373) && |rest[0]| >= 16
      && var list := Words(rest[0][16..]);
      Words(rest[0][8..16]) == [0, |list|] && SyncList(list, smpl)
  }

  lemma {:induction false} SyncCountIs(smpl: seq<Sample>)
    ensures SyncCount(smpl) <= |smpl|
    ensures SyncCount(smpl) == |smpl| <==> forall i | 0 <= i < |smpl| :: smpl[i].sync
  {
    hide SyncCount, SyncNumbers;
    SyncStep(smpl);
    if smpl != [] {
      var n := |smpl| - 1;
      SyncCountIs(smpl[..n]);
      assert forall i | 0 <= i < n :: smpl[..n][i] == smpl[i];
    }
  }

  lemma {:induction false} SyncNumbersSay(smpl: seq<Sample>)
    requires |smpl| < WORD
    ensures var list := Words(SyncNumbers(smpl)); |list| == SyncCount(smpl) && SyncList(list, smpl)
  {
    hide U32, Words, SyncNumbers, SyncCount, SyncList;
    SyncStep(smpl);
    if smpl == [] {
      NoWords();
      assert SyncList([], smpl) by { NoSync(); }
    } else {
      var n := |smpl| - 1;
      var list := Words(SyncNumbers(smpl[..n]));
      SyncNumbersSay(smpl[..n]);
      if smpl[n].sync {
        WordsJoin(SyncNumbers(smpl[..n]), U32(|smpl|));
        WordOf(|smpl|);
        OneMoreSync(list, smpl[..n], smpl);
      } else {
        NothingBehind(SyncNumbers(smpl[..n]));
        SameSync(list, smpl[..n], smpl);
      }
    }
  }

  lemma SyncStep(smpl: seq<Sample>)
    ensures smpl == [] ==> SyncNumbers(smpl) == [] && SyncCount(smpl) == 0
    ensures smpl != [] ==>
              var n := |smpl| - 1;
              && SyncNumbers(smpl) == SyncNumbers(smpl[..n]) + (if smpl[n].sync then U32(|smpl|) else [])
              && SyncCount(smpl) == SyncCount(smpl[..n]) + (if smpl[n].sync then 1 else 0)
  {}

  lemma NoSync()
    ensures SyncList([], [])
  {}

  lemma SameSync(list: seq<nat>, init: seq<Sample>, smpl: seq<Sample>)
    requires smpl != [] && init == smpl[..|smpl| - 1] && !smpl[|smpl| - 1].sync && SyncList(list, init)
    ensures SyncList(list, smpl)
  {
    forall i | 0 <= i < |smpl| && smpl[i].sync ensures i + 1 in list {
      assert init[i].sync;
    }
  }

  lemma OneMoreSync(list: seq<nat>, init: seq<Sample>, smpl: seq<Sample>)
    requires smpl != [] && init == smpl[..|smpl| - 1] && smpl[|smpl| - 1].sync && SyncList(list, init)
    ensures SyncList(list + [|smpl|], smpl)
  {
    var more := list + [|smpl|];
    forall i, j | 0 <= i < j < |more| ensures more[i] < more[j] {
      assert list != [] ==> list[i] in list;
    }
    forall i | 0 <= i < |smpl| && smpl[i].sync ensures i + 1 in more {
      if i < |init| {
        assert init[i].sync && i + 1 in list;
      } else {
        assert more[|list|] == i + 1;
      }
    }
  }

  lemma StssSays(smpl: seq<Sample>)
    requires |smpl| < WORD
    ensures SaysSync(Optional(Stss(smpl)), smpl)
  {
    hide U32, Words, FullBox, SyncNumbers, SyncCount, SyncList;
    SyncCountIs(smpl);
    if SyncCount(smpl) != |smpl| {
      SyncNumbersSay(smpl);
      WordOf(SyncCount(smpl));
      FullFront(STSS, 0, U32(SyncCount(smpl)), SyncNumbers(smpl));
      TableKinds();
    }
  }

  lemma TableKinds()
    ensures Value32(STSD) == 0x7374_7364 && Value32(STTS) == 0x7374_7473 && Value32(STSC) == 0x7374_7363
    ensures Value32(STSZ) == 0x7374_737a && Value32(STCO) == 0x7374_636f && Value32(CO64) == 0x636f_3634
    ensures Value32(STSS) == 0x7374_7373
  {}

  /** stsd, the runs of durations, one chunk for each sample, sizes, offsets, random access points. */
  ghost predicate SaysTables(boxes: seq<seq<Byte>>, t: Indexed)
    requires Encodable(t)
  {
    && |boxes| >= 5 && SaysStsd(boxes[0], t)
    && Is(boxes[1], 0x7374_7473) && Is(boxes[2], 0x7374_7363) && Words(boxes[2][8..]) == [0, 1, 1, 1, 1]
    && Is(boxes[3], 0x7374_737a) && SaysOffsets(boxes[4], t.smpl) && SaysSync(boxes[5..], t.smpl)
  }

  predicate SaysStsd(b: seq<Byte>, t: Indexed)
    requires Encodable(t)
  {
    Is(b, 0x7374_7364) && |b| >= 16 && Words(b[8..16]) == [0, 1] && SaysEntries(Children(b[16..]), t)
  }

  predicate SaysOffsets(b: seq<Byte>, smpl: seq<Sample>) {
    Is(b, if smpl != [] && smpl[|smpl| - 1].offset > 0xffff_ffff then 0x636f_3634 else 0x7374_636f)
  }

  lemma StsdSays(t: Indexed)
    requires Encodable(t) && |Stsd(t)| < WORD
    ensures SaysStsd(Stsd(t), t)
  {
    hide U32, Words, FullBox, AudioEntry, VideoEntry, Value32, Children, SaysAudio, SaysVideo, Sized;
    var e := if t.info.media != Video then AudioEntry(t) else if t.info.objectType == AVC then VideoEntry(t) else [];
    WordOf(1);
    FullFront(STSD, 0, U32(1), e);
    TableKinds();
    if t.info.media != Video {
      AudioSays(t);
      EntrySized(t);
      OneChild(e);
    } else if t.info.objectType == AVC {
      VideoSays(t);
      EntrySized(t);
      OneChild(e);
    } else {
      NoChildren();
    }
  }

  lemma NoChildren()
    ensures Children([]) == []
  {}

  lemma EntrySized(t: Indexed)
    requires Encodable(t)
    ensures t.info.media != Video && |AudioEntry(t)| < WORD ==> Sized(AudioEntry(t))
    ensures t.info.media == Video && t.info.objectType == AVC && |VideoEntry(t)| < WORD ==> Sized(VideoEntry(t))
  {
    hide Sized, AudioFields, Esds, VisualSize, VisualRest, AvcConfig;
    if t.info.media != Video && |AudioEntry(t)| < WORD {
      BoxSized(if t.info.media == Audio then MP4A else MP4S, AudioFields(t.info) + Esds(t));
    } else if t.info.media == Video && t.info.objectType == AVC && |VideoEntry(t)| < WORD {
      BoxSized(AVC1, VisualSize(t.info) + VisualRest() + AvcConfig(t));
    }
  }

  lemma OffsetsSay(smpl: seq<Sample>)
    ensures SaysOffsets(ChunkOffsets(smpl), smpl)
  {
    hide FullBox, U32, Offsets, WideOffsets;
    FullWords(CO64, 0, U32(|smpl|) + WideOffsets(smpl));
    FullWords(STCO, 0, U32(|smpl|) + Offsets(smpl));
  }

  lemma StscSays()
    ensures Is(Stsc(), 0x7374_7363) && Words(Stsc()[8..]) == [0, 1, 1, 1, 1]
  {
    hide U32, Words, FullBox;
    var one := U32(1);
    WordOf(1);
    WordsJoin(one, one);
    WordsJoin(one + one, one);
    WordsJoin(one + one + one, one);
    FullWords(STSC, 0, one + one + one + one);
  }

  lemma TablesSay(t: Indexed)
    requires Encodable(t) && |Stbl(t)| < WORD && |t.smpl| < WORD
    ensures SaysTables(Children(Body(Stbl(t))), t)
  {
    hide Encodable, Stbl, Stsd, Stts, Stsc, Stsz, ChunkOffsets, Stss, Children, Body, Words, SaysStsd, SaysOffsets, Is;
    hide SaysSync;
    var boxes := [Stsd(t), Stts(t.smpl), Stsc(), Stsz(t.smpl), ChunkOffsets(t.smpl)] + Optional(Stss(t.smpl));
    StblChildren(t);
    assert boxes[5..] == Optional(Stss(t.smpl));
    StsdFits(t);
    StsdSays(t);
    StscSays();
    OffsetsSay(t.smpl);
    StssSays(t.smpl);
    SizesKinds(t.smpl);
  }

  lemma StsdFits(t: Indexed)
    requires Encodable(t)
    ensures |Stsd(t)| < |Stbl(t)|
  {
    hide Stsd, Stts, Stsc, Stsz, ChunkOffsets, Stss;
  }

  lemma SizesKinds(smpl: seq<Sample>)
    ensures Is(Stts(smpl), 0x7374_7473) && Is(Stsz(smpl), 0x7374_737a)
  {
    hide FullBox, U32, Runs, RunBytes, Sizes;
    FullWords(STTS, 0, U32(|Runs(smpl, 0, 1)|) + RunBytes(Runs(smpl, 0, 1)));
    FullWords(STSZ, 0, U32(0) + U32(|smpl|) + Sizes(smpl));
  }

  // ---------------------------------------------------------------- tracks and movie

  /** A track from its header down to its sample tables. */
  ghost predicate SaysTrack(b: seq<Byte>, t: Indexed, id: nat)
    requires Encodable(t)
  {
    && Is(b, 0x7472_616b)
    && var level := Children(Body(b));
    && |level| == 2 && SaysTkhd(level[0], t, id) && SaysMedia(level[1], t)
  }

  ghost predicate SaysMedia(b: seq<Byte>, t: Indexed)
    requires Encodable(t)
  {
    && Is(b, 0x6d64_6961)
    && var level := Children(Body(b));
    && |level| == 3 && SaysMdhd(level[0], t) && SaysHdlr(level[1], t.info.media) && SaysMinf(level[2], t)
  }

  ghost predicate SaysMinf(b: seq<Byte>, t: Indexed)
    requires Encodable(t)
  {
    && Is(b, 0x6d69_6e66)
    && var level := Children(Body(b));
    && var n := |level| - 2;
    && n >= 0 && SaysMediaHeader(level[..n], t.info.media) && SaysDinf(level[n])
    && Is(level[n + 1], 0x7374_626c) && SaysTables(Children(Body(level[n + 1])), t)
  }

  lemma MinfSays(t: Indexed)
    requires Encodable(t) && |Minf(t)| < WORD && |t.smpl| < WORD
    ensures SaysMinf(Minf(t), t)
  {
    hide Encodable, Stbl, Minf, MediaHeader, Dinf, Children, Body, Is, SaysMediaHeader, SaysDinf, SaysTables;
    var m := Optional(MediaHeader(t.info.media));
    MinfChildren(t);
    assert (m + [Dinf(), Stbl(t)])[..|m|] == m;
    MediaHeaderSays(t.info.media);
    DinfSays();
    LevelKinds(t);
    TablesSay(t);
  }

  lemma LevelKinds(t: Indexed)
    requires Encodable(t)
    ensures Is(Stbl(t), 0x7374_626c) && Is(Minf(t), 0x6d69_6e66) && Is(Mdia(t), 0x6d64_6961)
    ensures |Stbl(t)| < |Minf(t)| < |Mdia(t)|
  {
    hide Stsd, Stts, Stsc, Stsz, ChunkOffsets, Stss, MediaHeader, Dinf, Mdhd, Hdlr, Value32, Is, U32, Box;
    KindNumbers();
    BoxKind(STBL, Stsd(t) + Stts(t.smpl) + Stsc() + Stsz(t.smpl) + ChunkOffsets(t.smpl) + Stss(t.smpl));
    BoxKind(MINF, MediaHeader(t.info.media) + Dinf() + Stbl(t));
    BoxKind(MDIA, Mdhd(t) + Hdlr(t.info.media) + Minf(t));
  }

  lemma MediaSays(t: Indexed)
    requires Encodable(t) && |Mdia(t)| < WORD && |t.smpl| < WORD
    ensures SaysMedia(Mdia(t), t)
  {
    hide Mdia, Minf, Mdhd, Hdlr, Children, Body, Is, SaysMdhd, SaysHdlr, SaysMinf, SaysMedia, Value32;
    MdiaChildren(t);
    LevelKinds(t);
    MdhdSays(t);
    HdlrSays(t.info.media);
    MinfSays(t);
    ThreeLevels(Mdia(t), t, Mdhd(t), Hdlr(t.info.media), Minf(t));
  }

  lemma ThreeLevels(b: seq<Byte>, t: Indexed, mdhd: seq<Byte>, hdlr: seq<Byte>, minf: seq<Byte>)
    requires Encodable(t) && Is(b, 0x6d64_6961) && |b| >= 8 && Children(Body(b)) == [mdhd, hdlr, minf]
    requires SaysMdhd(mdhd, t) && SaysHdlr(hdlr, t.info.media) && SaysMinf(minf, t)
    ensures SaysMedia(b, t)
  {
    hide Encodable, Children, Body, Is, SaysMdhd, SaysHdlr, SaysMinf;
  }

  lemma TrackSays(t: Indexed, id: nat)
    requires Encodable(t) && |Trak(t, id)| < WORD && |t.smpl| < WORD
    ensures SaysTrack(Trak(t, id), t, id)
  {
    hide Encodable, Trak, Mdia, Tkhd, Children, Body, Is, SaysTkhd, SaysMedia, Box, Value32;
    TrakParts(t, id);
    TrakChildren(t, id);
    BoxKind(TRAK, Tkhd(t, id) + Mdia(t));
    KindNumbers();
    TkhdSays(t, id);
    MediaSays(t);
  }

  /** The text of the comment, with its closing zero. */
  predicate SaysComment(b: seq<Byte>, text: seq<Byte>) {
    && Is(b, 0x7564_7461)
    && var metas := Children(Body(b));
    |metas| == 1 && SaysMeta(metas[0], text)
  }

  predicate SaysMeta(b: seq<Byte>, text: seq<Byte>) {
    && Is(b, 0x6d65_7461) && |b| >= 12 && Words(b[8..12]) == [0]
    && var level := Children(b[12..]);
    && |level| == 2 && Is(level[0], 0x6864_6c72) && Words(level[0][8..]) == [0, 0, 0x6d64_6972, 0, 0, 0, 0]
    && SaysItems(level[1], text)
  }

  predicate SaysItems(b: seq<Byte>, text: seq<Byte>) {
    && Is(b, 0x696c_7374)
    && var items := Children(Body(b));
    && |items| == 1 && Is(items[0], 0xa963_6d74)
    && var data := Children(Body(items[0]));
    && |data| == 1 && Is(data[0], 0x6461_7461) && |data[0]| >= 16 && Words(data[0][8..16]) == [1, 0]
    && data[0][16..] == text + [0]
  }

  /** The whole index: the header, a trak for each track with samples, in order and under its
      number, and the comment. */
  ghost predicate SaysMovie(b: seq<Byte>, tracks: seq<Indexed>, comment: Option<seq<Byte>>)
    requires Indexable(tracks)
  {
    && Is(b, 0x6d6f_6f76)
    && var level := Children(Body(b));
    && var n := |InIndex(tracks)|;
    && |level| == 1 + n + (if comment.Some? then 1 else 0) && SaysMvhd(level[0], tracks)
    && (forall k | 0 <= k < n :: Said(level[1 + k], tracks, InIndex(tracks)[k]))
    && (comment.Some? ==> SaysComment(level[1 + n], comment.value))
  }

  /** The numbers of the tracks with samples. */
  function InIndex(tracks: seq<Indexed>): (w: seq<nat>)
    ensures forall k | 0 <= k < |w| :: w[k] < |tracks| && tracks[w[k]].smpl != []
    ensures forall t | 0 <= t < |tracks| && tracks[t].smpl != [] :: t in w
    ensures forall j, k | 0 <= j < k < |w| :: w[j] < w[k]
  {
    if tracks == [] then []
    else
      var n := |tracks| - 1;
      var w := InIndex(tracks[..n]);
      assert forall t | 0 <= t < n :: tracks[..n][t] == tracks[t];
      if tracks[n].smpl == [] then w else w + [n]
  }

  lemma CommentSays(text: seq<Byte>)
    requires |Udta(Some(text))| < WORD
    ensures SaysComment(Udta(Some(text)), text)
  {
    hide U32, FullBox, Box, Value32, Sized, Children, MetaHandler, Body, Is, SaysMeta;
    var ilst := Box(ILST, Box(CCMT, Box(DATA, U32(1) + U32(0) + text + [0])));
    var meta := FullBox(META, 0, MetaHandler() + ilst);
    CommentKinds();
    CommentSized(text);
    BoxKind(UDTA, meta);
    BodyOfBox(UDTA, meta);
    OneChild(meta);
    ItemsSay(text);
    MetaBoxSays(ilst, text);
  }

  lemma MetaBoxSays(ilst: seq<Byte>, text: seq<Byte>)
    requires Sized(ilst) && Sized(MetaHandler()) && SaysItems(ilst, text)
    ensures SaysMeta(FullBox(META, 0, MetaHandler() + ilst), text)
  {
    hide U32, Words, FullBox, Value32, Sized, Children, MetaHandler, SaysItems;
    CommentKinds();
    FullFront(META, 0, [], MetaHandler() + ilst);
    NothingBehind(MetaHandler() + ilst);
    NoWords();
    TwoChildren(MetaHandler(), ilst);
    MetaSays();
  }

  lemma ItemsSay(text: seq<Byte>)
    requires |Udta(Some(text))| < WORD
    ensures SaysItems(Box(ILST, Box(CCMT, Box(DATA, U32(1) + U32(0) + text + [0]))), text)
  {
    hide U32, Words, Box, Value32, Sized, Children, MetaHandler, Body;
    var data := Box(DATA, U32(1) + U32(0) + text + [0]);
    var ccmt := Box(CCMT, data);
    CommentKinds();
    CommentSized(text);
    BoxKind(ILST, ccmt);
    BodyOfBox(ILST, ccmt);
    OneChild(ccmt);
    BoxKind(CCMT, data);
    BodyOfBox(CCMT, data);
    OneChild(data);
    DataSays(text);
  }

  lemma CommentKinds()
    ensures Value32(UDTA) == 0x7564_7461 && Value32(META) == 0x6d65_7461 && Value32(ILST) == 0x696c_7374
    ensures Value32(CCMT) == 0xa963_6d74 && Value32(DATA) == 0x6461_7461 && Value32(HDLR) == 0x6864_6c72
  {}

  lemma CommentSized(text: seq<Byte>)
    requires |Udta(Some(text))| < WORD
    ensures var data := Box(DATA, U32(1) + U32(0) + text + [0]);
            var ccmt := Box(CCMT, data);
            var ilst := Box(ILST, ccmt);
            && Sized(data) && Sized(ccmt) && Sized(ilst) && Sized(MetaHandler())
            && Sized(FullBox(META, 0, MetaHandler() + ilst))
  {
    hide Sized, U32;
    var data := Box(DATA, U32(1) + U32(0) + text + [0]);
    BoxSized(DATA, U32(1) + U32(0) + text + [0]);
    BoxSized(CCMT, data);
    BoxSized(ILST, Box(CCMT, data));
    FullBoxSized(HDLR, 0, ZeroBytes(4) + U32(0x6d64_6972) + ZeroBytes(16));
    FullBoxSized(META, 0, MetaHandler() + Box(ILST, Box(CCMT, data)));
  }

  lemma TwoChildren(a: seq<Byte>, b: seq<Byte>)
    requires Sized(a) && Sized(b)
    ensures Children(a + b) == [a, b]
  {
    hide Sized, SizedWide, Children, Cat;
    CatTwo(a, b);
    ChildrenOfCat([a, b]);
  }

  lemma MetaSays()
    ensures Is(MetaHandler(), 0x6864_6c72) && Words(MetaHandler()[8..]) == [0, 0, 0x6d64_6972, 0, 0, 0, 0]
  {
    hide U32, Words, FullBox;
    ThreeNulls();
    WordsOfZeros(4);
    WordOf(0x6d64_6972);
    WordsJoin(ZeroBytes(4), U32(0x6d64_6972));
    WordsJoin(ZeroBytes(4) + U32(0x6d64_6972), ZeroBytes(16));
    FullWords(HDLR, 0, ZeroBytes(4) + U32(0x6d64_6972) + ZeroBytes(16));
  }

  lemma DataSays(text: seq<Byte>)
    ensures var b := Box(DATA, U32(1) + U32(0) + text + [0]);
            && Is(b, 0x6461_7461) && |b| >= 16 && Words(b[8..16]) == [1, 0] && b[16..] == text + [0]
  {
    hide U32, Words, Value32, Box;
    var front := U32(1) + U32(0);
    CommentKinds();
    WordOf(1);
    WordOf(0);
    WordsJoin(U32(1), U32(0));
    Assoc(front, text, [0]);
    BoxKind(DATA, front + (text + [0]));
    BodyOfBox(DATA, front + (text + [0]));
    var b := Box(DATA, front + (text + [0]));
    BoxLength(DATA, front + (text + [0]));
    assert Body(b)[..8] == b[8..16] && Body(b)[8..] == b[16..];
    Halves(front, text + [0]);
  }

  lemma BoxLength(kind: seq<Byte>, content: seq<Byte>)
    requires |kind| == 4
    ensures |Box(kind, content)| == 8 + |content|
  {}

  // ---------------------------------------------------------------- the movie

  lemma {:induction false} InIndexBoxes(tracks: seq<Indexed>)
    requires Indexable(tracks)
    ensures |TrakList(tracks)| == |InIndex(tracks)|
    ensures forall k | 0 <= k < |InIndex(tracks)| ::
              var t := InIndex(tracks)[k];
              Encodable(tracks[t]) && TrakList(tracks)[k] == Trak(tracks[t], t + 1)
  {
    hide Encodable, Trak, TrakList, InIndex, Indexable;
    WrittenStep(tracks);
    if tracks != [] {
      var n := |tracks| - 1;
      InIndexBoxes(tracks[..n]);
      forall k | 0 <= k < |InIndex(tracks)|
        ensures var t := InIndex(tracks)[k];
                Encodable(tracks[t]) && TrakList(tracks)[k] == Trak(tracks[t], t + 1) {
        if k < |InIndex(tracks[..n])| {
          var t := InIndex(tracks[..n])[k];
          assert tracks[..n][t] == tracks[t];
        }
      }
    }
  }

  lemma WrittenStep(tracks: seq<Indexed>)
    requires Indexable(tracks)
    ensures tracks == [] ==> TrakList(tracks) == [] && InIndex(tracks) == []
    ensures tracks != [] ==>
              var n := |tracks| - 1;
              && Indexable(tracks[..n]) && (tracks[n].smpl != [] ==> Encodable(tracks[n]))
              && InIndex(tracks) == InIndex(tracks[..n]) + (if tracks[n].smpl == [] then [] else [n])
              && TrakList(tracks)
                   == TrakList(tracks[..n]) + (if tracks[n].smpl == [] then [] else [Trak(tracks[n], n + 1)])
  {
    hide Encodable, Trak;
    if tracks != [] {
      assert tracks[|tracks| - 1] in tracks;
    }
  }

  /** The index that is written says of the movie what its tracks are. */
  lemma MovieSays(tracks: seq<Indexed>, comment: Option<seq<Byte>>)
    requires Indexable(tracks) && |Moov(tracks, comment)| < WORD && forall t | t in tracks :: |t.smpl| < WORD
    ensures SaysMovie(Moov(tracks, comment), tracks, comment)
  {
    hide Encodable, Moov, Mvhd, Udta, TrakList, Trak, Children, Body, Is, SaysMvhd, SaysTrack, SaysComment, InIndex;
    hide Sized, SaysMovie, Indexable, TracksSaid;
    MoovChildren(tracks, comment);
    MoovIs(tracks, comment);
    MvhdSays(tracks);
    EachTrackSays(tracks, comment);
    if comment.Some? {
      CommentSays(comment.value);
      UdtaThere(comment);
    } else {
      NoComment(comment);
    }
    MovieOf(Moov(tracks, comment), tracks, comment, Mvhd(tracks), TrakList(tracks), Optional(Udta(comment)));
  }

  /** A box says what track t is. */
  ghost predicate Said(box: seq<Byte>, tracks: seq<Indexed>, t: nat) {
    t < |tracks| && Encodable(tracks[t]) && SaysTrack(box, tracks[t], t + 1)
  }

  /** The boxes of the tracks say what these are. */
  ghost predicate TracksSaid(boxes: seq<seq<Byte>>, tracks: seq<Indexed>) {
    |boxes| == |InIndex(tracks)| && forall k | 0 <= k < |boxes| :: Said(boxes[k], tracks, InIndex(tracks)[k])
  }

  lemma EachTrackSays(tracks: seq<Indexed>, comment: Option<seq<Byte>>)
    requires Indexable(tracks) && |Moov(tracks, comment)| < WORD && forall t | t in tracks :: |t.smpl| < WORD
    ensures TracksSaid(TrakList(tracks), tracks)
  {
    hide Moov, TrakList, InIndex, Said, Indexable;
    InIndexBoxes(tracks);
    forall k | 0 <= k < |InIndex(tracks)| ensures Said(TrakList(tracks)[k], tracks, InIndex(tracks)[k]) {
      OneTrackSays(tracks, comment, k);
    }
  }

  lemma OneTrackSays(tracks: seq<Indexed>, comment: Option<seq<Byte>>, k: nat)
    requires Indexable(tracks) && |Moov(tracks, comment)| < WORD && forall t | t in tracks :: |t.smpl| < WORD
    requires k < |InIndex(tracks)|
    ensures k < |TrakList(tracks)| && Said(TrakList(tracks)[k], tracks, InIndex(tracks)[k])
  {
    hide Encodable, Moov, TrakList, Trak, Traks, SaysTrack, InIndex, Sized, Is;
    MoovIs(tracks, comment);
    TrakListIs(tracks);
    InIndexBoxes(tracks);
    var t, b := InIndex(tracks)[k], TrakList(tracks)[k];
    assert b in TrakList(tracks) && tracks[t] in tracks;
    SizedBelow(b);
    TrackSays(tracks[t], t + 1);
  }

  lemma MovieOf(b: seq<Byte>, tracks: seq<Indexed>, comment: Option<seq<Byte>>, mvhd: seq<Byte>, boxes: seq<seq<Byte>>,
                last: seq<seq<Byte>>)
    requires Indexable(tracks) && Is(b, 0x6d6f_6f76) && |b| >= 8 && Children(Body(b)) == [mvhd] + boxes + last
    requires SaysMvhd(mvhd, tracks) && TracksSaid(boxes, tracks)
    requires if comment.Some? then |last| == 1 && SaysComment(last[0], comment.value) else last == []
    ensures SaysMovie(b, tracks, comment)
  {
    hide Encodable, Children, Body, Is, SaysMvhd, SaysTrack, SaysComment, InIndex, Said;
    var level := [mvhd] + boxes + last;
    LevelParts(mvhd, boxes, last);
    forall k | 0 <= k < |boxes| ensures Said(level[1 + k], tracks, InIndex(tracks)[k]) {
    }
  }

  lemma LevelParts(mvhd: seq<Byte>, boxes: seq<seq<Byte>>, last: seq<seq<Byte>>)
    ensures var level := [mvhd] + boxes + last;
            && |level| == 1 + |boxes| + |last| && level[0] == mvhd
            && (forall k | 0 <= k < |boxes| :: level[1 + k] == boxes[k])
            && (last != [] ==> level[1 + |boxes|] == last[0])
  {}

  lemma SizedBelow(b: seq<Byte>)
    requires Sized(b)
    ensures |b| < WORD
  {}

  lemma UdtaThere(comment: Option<seq<Byte>>)
    requires comment.Some?
    ensures Optional(Udta(comment)) == [Udta(comment)]
  {
    hide MetaHandler, CommentItem, FullBox;
  }

  lemma MoovIs(tracks: seq<Indexed>, comment: Option<seq<Byte>>)
    requires Indexable(tracks)
    ensures Is(Moov(tracks, comment), 0x6d6f_6f76)
    ensures |Moov(tracks, comment)| == 8 + |Mvhd(tracks)| + |Traks(tracks)| + |Udta(comment)|
  {
    hide Encodable, Mvhd, Traks, Udta, Value32, Is;
    KindNumbers();
    BoxKind(MOOV, Mvhd(tracks) + Traks(tracks) + Udta(comment));
  }

  // ---------------------------------------------------------------- finding a flag in a file

  /** The boxes of a type. */
  function Named(boxes: seq<seq<Byte>>, kind: nat): seq<seq<Byte>> {
    if boxes == [] then [] else (if Is(boxes[0], kind) then [boxes[0]] else []) + Named(boxes[1..], kind)
  }

  /** The boxes of a type in the first box of another; none without one. */
  function Below(boxes: seq<seq<Byte>>, kind: nat): seq<seq<Byte>>
  {
    if boxes == [] || |boxes[0]| < 8 then [] else Named(Children(Body(boxes[0])), kind)
  }

  /** Whether a reader of the file takes sample i of its n-th track as a random access point: it is
      in the list, or there is no list. */
  function SyncRead(file: seq<Byte>, n: nat, i: nat): bool {
    var traks := Below(Named(Children(file), 0x6d6f_6f76), 0x7472_616b);
    n < |traks| && SyncIn(traks[n], i)
  }

  function SyncIn(trak: seq<Byte>, i: nat): bool {
    var stbl := Below(Below(Below([trak], 0x6d64_6961), 0x6d69_6e66), 0x7374_626c);
    Listed(Below(stbl, 0x7374_7373), i)
  }

  predicate Listed(stss: seq<seq<Byte>>, i: nat) {
    stss == [] || (|stss[0]| >= 16 && i + 1 in Words(stss[0][16..]))
  }

  lemma {:induction false} NamedJoin(a: seq<seq<Byte>>, b: seq<seq<Byte>>, kind: nat)
    ensures Named(a + b, kind) == Named(a, kind) + Named(b, kind)
  {
    hide Is, Named;
    NamedStep(a, kind);
    NamedStep(a + b, kind);
    if a == [] {
      assert a + b == b;
    } else {
      assert (a + b)[1..] == a[1..] + b;
      NamedJoin(a[1..], b, kind);
      Assoc(if Is(a[0], kind) then [a[0]] else [], Named(a[1..], kind), Named(b, kind));
    }
  }

  lemma NamedStep(boxes: seq<seq<Byte>>, kind: nat)
    ensures Named(boxes, kind) == if boxes == [] then []
                                  else (if Is(boxes[0], kind) then [boxes[0]] else []) + Named(boxes[1..], kind)
  {}

  lemma {:induction false} NamedNone(boxes: seq<seq<Byte>>, kind: nat)
    requires forall j | 0 <= j < |boxes| :: !Is(boxes[j], kind)
    ensures Named(boxes, kind) == []
  {
    hide Is;
    if boxes != [] {
      NamedNone(boxes[1..], kind);
    }
  }

  lemma {:induction false} NamedAll(boxes: seq<seq<Byte>>, kind: nat)
    requires forall j | 0 <= j < |boxes| :: Is(boxes[j], kind)
    ensures Named(boxes, kind) == boxes
  {
    hide Is;
    if boxes != [] {
      NamedAll(boxes[1..], kind);
      assert boxes == [boxes[0]] + boxes[1..];
    }
  }

  /** A box that is the only one of its type. */
  lemma NamedOne(boxes: seq<seq<Byte>>, i: nat, kind: nat)
    requires i < |boxes| && Is(boxes[i], kind) && forall j | 0 <= j < |boxes| && j != i :: !Is(boxes[j], kind)
    ensures Named(boxes, kind) == [boxes[i]]
  {
    hide Is, Named;
    var a, b := boxes[..i], boxes[i + 1..];
    assert boxes == a + ([boxes[i]] + b);
    NamedJoin(a, [boxes[i]] + b, kind);
    NamedJoin([boxes[i]], b, kind);
    NamedNone(a, kind);
    NamedNone(b, kind);
    NamedAll([boxes[i]], kind);
  }

  lemma TrackNamed(level: seq<seq<Byte>>, t: Indexed, id: nat)
    requires Encodable(t) && |level| == 2 && SaysTkhd(level[0], t, id) && SaysMedia(level[1], t)
    ensures |level[1]| >= 8 && Named(level, 0x6d64_6961) == [level[1]]
  {
    hide Encodable, Children, Words, Named, SaysMdhd, SaysHdlr, SaysMinf, Value32, TotalTime;
    NamedOne(level, 1, 0x6d64_6961);
  }

  lemma MediaNamed(level: seq<seq<Byte>>, t: Indexed)
    requires Encodable(t) && |level| == 3
    requires SaysMdhd(level[0], t) && SaysHdlr(level[1], t.info.media) && SaysMinf(level[2], t)
    ensures |level[2]| >= 8 && Named(level, 0x6d69_6e66) == [level[2]]
  {
    hide Encodable, Children, Words, Named, SaysMediaHeader, SaysDinf, SaysTables, Value32, TotalTime;
    NamedOne(level, 2, 0x6d69_6e66);
  }

  lemma MinfNamed(level: seq<seq<Byte>>, m: Media)
    requires var n := |level| - 2;
             && n >= 0 && SaysMediaHeader(level[..n], m) && SaysDinf(level[n]) && Is(level[n + 1], 0x7374_626c)
    ensures var b := level[|level| - 1]; |b| >= 8 && Named(level, 0x7374_626c) == [b]
  {
    hide Children, Words, Named, Value32;
    var n := |level| - 2;
    forall j | 0 <= j <= n ensures !Is(level[j], 0x7374_626c) {
      assert j < n ==> level[j] == level[..n][j];
    }
    NamedOne(level, n + 1, 0x7374_626c);
  }

  lemma TablesNamed(level: seq<seq<Byte>>, t: Indexed, i: nat)
    requires Encodable(t) && SaysTables(level, t) && i < |t.smpl|
    ensures Listed(Named(level, 0x7374_7373), i) <==> t.smpl[i].sync
  {
    hide Encodable, Children, Words, Named, SaysEntries, Value32;
    var front, rest := level[..5], level[5..];
    assert level == front + rest;
    NamedJoin(front, rest, 0x7374_7373);
    NamedNone(front, 0x7374_7373);
    if rest == [] {
      NamedNone(rest, 0x7374_7373);
    } else {
      NamedAll(rest, 0x7374_7373);
    }
  }

  lemma BelowOne(b: seq<Byte>, kind: nat)
    requires |b| >= 8
    ensures Below([b], kind) == Named(Children(Body(b)), kind)
  {}

  /** From a track that says what it should down to its list of random access points. */
  lemma TrackSync(b: seq<Byte>, t: Indexed, id: nat, i: nat)
    requires Encodable(t) && SaysTrack(b, t, id) && i < |t.smpl|
    ensures SyncIn(b, i) <==> t.smpl[i].sync
  {
    hide Encodable, Children, Words, SaysMdhd, SaysTkhd, SaysHdlr, SaysDinf, SaysMediaHeader, SaysTables, Named, Below;
    hide Value32, Listed;
    var level := Children(Body(b));
    TrackNamed(level, t, id);
    var media := Children(Body(level[1]));
    MediaNamed(media, t);
    var inner := Children(Body(media[2]));
    MinfNamed(inner, t.info.media);
    var stbl := inner[|inner| - 1];
    BelowOne(b, 0x6d64_6961);
    BelowOne(level[1], 0x6d69_6e66);
    BelowOne(media[2], 0x7374_626c);
    BelowOne(stbl, 0x7374_7373);
    TablesNamed(Children(Body(stbl)), t, i);
  }

  /** The traks of an index, found by their type. */
  lemma MovieNamed(b: seq<Byte>, tracks: seq<Indexed>, comment: Option<seq<Byte>>)
    requires Indexable(tracks) && SaysMovie(b, tracks, comment)
    ensures |b| >= 8 && var n := |InIndex(tracks)|;
            var level := Children(Body(b));
            |level| >= 1 + n && Below([b], 0x7472_616b) == level[1..1 + n]
  {
    hide Encodable, Children, Words, Named, Value32, Below, SaysMvhd, SaysComment, InIndex, SaysTrack, Is;
    LongEnough(b, 0x6d6f_6f76);
    var n, level := |InIndex(tracks)|, Children(Body(b));
    BelowOne(b, 0x7472_616b);
    forall k | 1 <= k < 1 + n ensures Is(level[k], 0x7472_616b) {
      var t := InIndex(tracks)[k - 1];
      assert level[k] == level[1 + (k - 1)];
      TrackKind(level[k], tracks[t], t + 1);
    }
    HeaderKind(level[0], tracks);
    if comment.Some? {
      CommentKind(level[1 + n], comment.value);
    }
    NamedMiddle(level, n, 0x7472_616b);
  }

  lemma LongEnough(b: seq<Byte>, kind: nat)
    requires Is(b, kind)
    ensures |b| >= 8
  {}

  lemma HeaderKind(b: seq<Byte>, tracks: seq<Indexed>)
    requires Indexable(tracks) && SaysMvhd(b, tracks)
    ensures !Is(b, 0x7472_616b)
  {
    hide Words, Encodable;
  }

  lemma CommentKind(b: seq<Byte>, text: seq<Byte>)
    requires SaysComment(b, text)
    ensures !Is(b, 0x7472_616b)
  {
    hide Words, Children;
  }

  lemma NamedMiddle(level: seq<seq<Byte>>, n: nat, kind: nat)
    requires |level| >= 1 + n && !Is(level[0], kind) && (forall k | 1 <= k < 1 + n :: Is(level[k], kind))
    requires forall k | 1 + n <= k < |level| :: !Is(level[k], kind)
    ensures Named(level, kind) == level[1..1 + n]
  {
    hide Is, Named;
    var head, middle, rest := level[..1], level[1..1 + n], level[1 + n..];
    assert level == head + (middle + rest);
    NamedJoin(head, middle + rest, kind);
    NamedJoin(middle, rest, kind);
    NamedNone(head, kind);
    NamedNone(rest, kind);
    NamedAll(middle, kind);
  }

  lemma TrackKind(b: seq<Byte>, t: Indexed, id: nat)
    requires Encodable(t) && SaysTrack(b, t, id)
    ensures Is(b, 0x7472_616b)
  {}

  /** In a file whose last box, and no other, is the index, a reader finds of each sample whether
      it is a random access point. */
  lemma SyncFound(file: seq<Byte>, b: seq<Byte>, tracks: seq<Indexed>, comment: Option<seq<Byte>>, n: nat, i: nat)
    requires Indexable(tracks) && SaysMovie(b, tracks, comment) && Named(Children(file), 0x6d6f_6f76) == [b]
    requires n < |InIndex(tracks)| && i < |tracks[InIndex(tracks)[n]].smpl|
    ensures SyncRead(file, n, i) <==> tracks[InIndex(tracks)[n]].smpl[i].sync
  {
    hide Encodable, Children, Words, Named, Value32, Below, SaysTrack, InIndex, SaysMvhd, SaysComment, Is, SyncIn;
    MovieNamed(b, tracks, comment);
    var level, t := Children(Body(b)), InIndex(tracks)[n];
    TrackSync(level[1 + n], tracks[t], t + 1, i);
  }

  /** A file: its type, of brand mp42, also compatible with isom, and one index, at the end. */
  ghost predicate SaysFile(file: seq<Byte>, tracks: seq<Indexed>, comment: Option<seq<Byte>>)
    requires Indexable(tracks)
  {
    var boxes := Children(file);
    && |boxes| >= 2 && Words(boxes[0]) == [24, 0x6674_7970, 0x6d70_3432, 0, 0x6d70_3432, 0x6973_6f6d]
    && Named(boxes, 0x6d6f_6f76) == [boxes[|boxes| - 1]] && SaysMovie(boxes[|boxes| - 1], tracks, comment)
  }

  lemma {:induction false} WrittenAt(tracks: seq<Indexed>, t: nat, n: nat)
    requires t < |tracks| && tracks[t].smpl != [] && n == |InIndex(tracks[..t])|
    ensures n < |InIndex(tracks)| && InIndex(tracks)[n] == t
    decreases |tracks|
  {
    hide InIndex;
    var k := |tracks| - 1;
    InIndexSnoc(tracks);
    if t < k {
      assert tracks[..k][..t] == tracks[..t];
      WrittenAt(tracks[..k], t, n);
    }
  }

  lemma InIndexSnoc(tracks: seq<Indexed>)
    requires tracks != []
    ensures var k := |tracks| - 1;
            InIndex(tracks) == InIndex(tracks[..k]) + (if tracks[k].smpl == [] then [] else [k])
  {}
}
