/** The index as one tree of boxes: from `moov` down to sample entries, data references and
    the comment, the boxes inside a box fill it from their first byte to its end. */
module Mp4Nested {
  import opened Seqs
  import opened Wrappers
  import opened Bits
  import opened Mp4Bytes
  import opened Mp4Boxes
  import opened Mp4Tree

  /** How many bytes behind size and type the boxes inside begin, for a type with boxes inside
      (sections 8.1 to 8.11 of ISO/IEC 14496-12). */
  function Skip(kind: nat): Option<nat> {
    match kind
    case 0x6d6f_6f76 => Some(0)  // moov
    case 0x7472_616b => Some(0)  // trak
    case 0x6d64_6961 => Some(0)  // mdia
    case 0x6d69_6e66 => Some(0)  // minf
    case 0x6469_6e66 => Some(0)  // dinf
    case 0x6472_6566 => Some(8)  // dref
    case 0x7374_626c => Some(0)  // stbl
    case 0x7374_7364 => Some(8)  // stsd
    case 0x6d70_3461 => Some(28) // mp4a
    case 0x6d70_3473 => Some(8)  // mp4s
    case 0x6176_6331 => Some(78) // avc1
    case 0x7564_7461 => Some(0)  // udta
    case 0x6d65_7461 => Some(4)  // meta
    case 0x696c_7374 => Some(0)  // ilst
    case 0xa963_6d74 => Some(0)  // ccmt
    case _ => None
  }

  /** The size field is the extent, and so for all boxes inside, which leave no gap. */
  predicate WellNested(b: seq<Byte>)
    decreases |b|
  {
    Sized(b) &&
    var skip := Skip(Value32(b[4..8]));
    skip.Some? ==>
      && 8 + skip.value <= |b|
      && var inner := b[8 + skip.value..];
         Cat(Children(inner)) == inner && forall c | c in Children(inner) :: WellNested(c)
  }

  lemma Leaf(kind: seq<Byte>, content: seq<Byte>)
    requires 4 <= |kind| && |Box(kind, content)| < WORD && Skip(Value32(kind[..4])) == None
    ensures WellNested(Box(kind, content))
  {
    hide Sized, Skip, Value32, U32;
    BoxSized(kind, content);
    assert Box(kind, content)[4..8] == kind[..4];
  }

  lemma LeafFull(kind: seq<Byte>, flags: nat, content: seq<Byte>)
    requires |kind| == 4 && |FullBox(kind, flags, content)| < WORD && Skip(Value32(kind)) == None
    ensures WellNested(FullBox(kind, flags, content))
  {
    hide Skip, Value32, U32, WellNested;
    assert (kind + U32(flags))[..4] == kind;
    Leaf(kind + U32(flags), content);
  }

  lemma Nest(kind: seq<Byte>, header: seq<Byte>, boxes: seq<seq<Byte>>)
    requires |kind| == 4 && |Box(kind, header + Cat(boxes))| < WORD && Skip(Value32(kind)) == Some(|header|)
    requires forall b | b in boxes :: WellNested(b)
    ensures WellNested(Box(kind, header + Cat(boxes)))
  {
    hide Sized, SizedWide, Skip, Value32, Cat, Children;
    var b := Box(kind, header + Cat(boxes));
    BoxSized(kind, header + Cat(boxes));
    NestParts(kind, header, Cat(boxes));
    ChildrenOfCat(boxes);
  }

  lemma NestParts(kind: seq<Byte>, header: seq<Byte>, rest: seq<Byte>)
    requires |kind| == 4
    ensures var b := Box(kind, header + rest);
            |b| == 8 + |header| + |rest| && b[4..8] == kind && b[8 + |header|..] == rest
  {
    hide U32;
    Assoc(U32(8 + |header + rest|) + kind, header, rest);
  }

  lemma NestFull(kind: seq<Byte>, flags: nat, header: seq<Byte>, boxes: seq<seq<Byte>>)
    requires |kind| == 4 && |FullBox(kind, flags, header + Cat(boxes))| < WORD
    requires Skip(Value32(kind)) == Some(4 + |header|)
    requires forall b | b in boxes :: WellNested(b)
    ensures WellNested(FullBox(kind, flags, header + Cat(boxes)))
  {
    hide Skip, Value32, U32, WellNested, Cat;
    var f := U32(flags);
    Assoc(f, header, Cat(boxes));
    Assoc(kind, f, header + Cat(boxes));
    Assoc(U32(8 + |kind| + |header + Cat(boxes)|), kind, f + (header + Cat(boxes)));
    Assoc(U32(8 + |kind| + |header + Cat(boxes)|), kind + f, header + Cat(boxes));
    assert FullBox(kind, flags, header + Cat(boxes)) == Box(kind, f + header + Cat(boxes));
    Nest(kind, f + header, boxes);
  }

  // ---------------------------------------------------------------- types

  lemma Containers()
    ensures Skip(Value32(MOOV)) == Some(0) && Skip(Value32(TRAK)) == Some(0) && Skip(Value32(MDIA)) == Some(0)
    ensures Skip(Value32(MINF)) == Some(0) && Skip(Value32(DINF)) == Some(0) && Skip(Value32(STBL)) == Some(0)
    ensures Skip(Value32(DREF)) == Some(8) && Skip(Value32(STSD)) == Some(8)
  {}

  lemma Entries()
    ensures Skip(Value32(MP4A)) == Some(28) && Skip(Value32(MP4S)) == Some(8) && Skip(Value32(AVC1)) == Some(78)
    ensures Skip(Value32(ESDS)) == None && Skip(Value32(AVCC)) == None
  {}

  lemma Comments()
    ensures Skip(Value32(UDTA)) == Some(0) && Skip(Value32(META)) == Some(4) && Skip(Value32(ILST)) == Some(0)
    ensures Skip(Value32(CCMT)) == Some(0) && Skip(Value32(DATA)) == None
  {}

  lemma Headers()
    ensures Skip(Value32(MVHD)) == None && Skip(Value32(TKHD)) == None && Skip(Value32(MDHD)) == None
    ensures Skip(Value32(HDLR)) == None && Skip(Value32(SMHD)) == None && Skip(Value32(VMHD)) == None
    ensures Skip(Value32(URL)) == None
  {}

  lemma SampleTables()
    ensures Skip(Value32(STTS)) == None && Skip(Value32(STSC)) == None && Skip(Value32(STSZ)) == None
    ensures Skip(Value32(STCO)) == None && Skip(Value32(CO64)) == None && Skip(Value32(STSS)) == None
  {}

  // ---------------------------------------------------------------- from the leaves up

  lemma AudioNested(t: Indexed)
    requires Encodable(t) && t.info.media != Video && |AudioEntry(t)| < WORD
    ensures WellNested(AudioEntry(t))
  {
    hide Encodable, WellNested, Skip, Value32, U32, Descriptors, AudioFields, Cat;
    Entries();
    LeafFull(ESDS, 0, if t.vsps == [] then [] else Descriptors(t));
    CatOne(Esds(t));
    Nest(if t.info.media == Audio then MP4A else MP4S, AudioFields(t.info), [Esds(t)]);
  }

  lemma VideoNested(t: Indexed)
    requires |t.vsps| >= 6 && |VideoEntry(t)| < WORD
    ensures WellNested(VideoEntry(t))
  {
    hide WellNested, Skip, Value32, U32, U8, VisualSize, VisualRest, Items, Cat;
    Entries();
    assert AVCC[..4] == AVCC;
    Leaf(AVCC, [1, t.vsps[3], t.vsps[4], t.vsps[5], 255, 0xe0 + Items(t.vsps, 0) % 32] + t.vsps
      + U8(Items(t.vpps, 0)) + t.vpps);
    CatOne(AvcConfig(t));
    Nest(AVC1, VisualSize(t.info) + VisualRest(), [AvcConfig(t)]);
  }

  lemma StsdNested(t: Indexed)
    requires Encodable(t) && |Stsd(t)| < WORD
    ensures WellNested(Stsd(t))
  {
    hide WellNested, Skip, Value32, U32, Cat, AudioEntry, VideoEntry;
    Containers();
    if t.info.media != Video {
      AudioNested(t);
      CatOne(AudioEntry(t));
      NestFull(STSD, 0, U32(1), [AudioEntry(t)]);
    } else if t.info.objectType == AVC {
      VideoNested(t);
      CatOne(VideoEntry(t));
      NestFull(STSD, 0, U32(1), [VideoEntry(t)]);
    } else {
      CatNone();
      NestFull(STSD, 0, U32(1), []);
    }
  }

  lemma TablesNested(smpl: seq<Sample>)
    requires |Stts(smpl)| < WORD && |Stsz(smpl)| < WORD && |ChunkOffsets(smpl)| < WORD && |Stss(smpl)| < WORD
    ensures WellNested(Stts(smpl)) && WellNested(Stsc()) && WellNested(Stsz(smpl)) && WellNested(ChunkOffsets(smpl))
    ensures Stss(smpl) != [] ==> WellNested(Stss(smpl))
  {
    hide WellNested, Skip, Value32, U32, RunBytes, Runs, Sizes, Offsets, WideOffsets, SyncNumbers, SyncCount;
    SampleTables();
    LeafFull(STTS, 0, U32(|Runs(smpl, 0, 1)|) + RunBytes(Runs(smpl, 0, 1)));
    LeafFull(STSC, 0, U32(1) + U32(1) + U32(1) + U32(1));
    LeafFull(STSZ, 0, U32(0) + U32(|smpl|) + Sizes(smpl));
    if smpl != [] && smpl[|smpl| - 1].offset >= WORD {
      LeafFull(CO64, 0, U32(|smpl|) + WideOffsets(smpl));
    } else {
      LeafFull(STCO, 0, U32(|smpl|) + Offsets(smpl));
    }
    if SyncCount(smpl) != |smpl| {
      LeafFull(STSS, 0, U32(SyncCount(smpl)) + SyncNumbers(smpl));
    }
  }

  lemma StblNested(t: Indexed)
    requires Encodable(t) && |Stbl(t)| < WORD
    ensures WellNested(Stbl(t))
  {
    hide Encodable, WellNested, Skip, Value32, U32, Cat, Stsd, Stts, Stsc, Stsz, ChunkOffsets, Stss;
    Containers();
    StsdNested(t);
    TablesNested(t.smpl);
    StblCat(t);
    var boxes := [Stsd(t), Stts(t.smpl), Stsc(), Stsz(t.smpl), ChunkOffsets(t.smpl)] + Optional(Stss(t.smpl));
    NothingBehind(Cat(boxes));
    Nest(STBL, [], boxes);
  }

  lemma DinfNested()
    ensures WellNested(Dinf())
  {
    hide WellNested, Skip, Value32, U32, Cat;
    Containers();
    Headers();
    var url, one := FullBox(URL, 1, []), U32(1);
    LeafFull(URL, 1, []);
    CatOne(url);
    NestFull(DREF, 0, one, [url]);
    var dref := FullBox(DREF, 0, one + url);
    CatOne(dref);
    NothingBehind(dref);
    Nest(DINF, [], [dref]);
  }

  lemma MediaNested(t: Indexed, id: nat)
    requires Encodable(t)
    ensures WellNested(Hdlr(t.info.media)) && WellNested(Mdhd(t)) && WellNested(Tkhd(t, id))
    ensures MediaHeader(t.info.media) != [] ==> WellNested(MediaHeader(t.info.media))
  {
    hide WellNested, Skip, Value32, U32, U16, HandlerName, HandlerType, Duration, Language, TrackTimes, TrackShape;
    Headers();
    LeafFull(SMHD, 0, ZeroBytes(4));
    LeafFull(VMHD, 1, ZeroBytes(8));
    var m := t.info.media;
    LeafFull(HDLR, 0, ZeroBytes(4) + U32(HandlerType(m)) + ZeroBytes(12) + HandlerName(m));
    LeafFull(MDHD, 0, ZeroBytes(8) + U32(t.info.timeScale) + U32(Duration(t.smpl))
      + U16(Language(t.info.language)) + U16(0));
    LeafFull(TKHD, 7, TrackTimes(t, id) + TrackShape(t.info));
  }

  lemma TrakNested(t: Indexed, id: nat)
    requires Encodable(t) && |Trak(t, id)| < WORD
    ensures WellNested(Trak(t, id))
  {
    hide Encodable, WellNested, Skip, Value32, U32, Cat, Tkhd, Mdhd, Hdlr, MediaHeader, Dinf, Stbl;
    Containers();
    MediaNested(t, id);
    MinfNested(t);
    var a, b, c := Mdhd(t), Hdlr(t.info.media), Minf(t);
    CatThree(a, b, c);
    NothingBehind(a + b + c);
    Nest(MDIA, [], [a, b, c]);
    TrakParts(t, id);
    CatTwo(Tkhd(t, id), Mdia(t));
    NothingBehind(Tkhd(t, id) + Mdia(t));
    Nest(TRAK, [], [Tkhd(t, id), Mdia(t)]);
  }

  lemma MinfNested(t: Indexed)
    requires Encodable(t) && |Minf(t)| < WORD
    ensures WellNested(Minf(t))
  {
    hide Encodable, WellNested, Skip, Value32, U32, Cat, MediaHeader, Dinf, Stbl;
    Containers();
    MediaNested(t, 0);
    DinfNested();
    StblNested(t);
    MinfCat(t);
    var boxes := Optional(MediaHeader(t.info.media)) + [Dinf(), Stbl(t)];
    NothingBehind(Cat(boxes));
    Nest(MINF, [], boxes);
  }

  lemma {:induction false} TrakListNested(tracks: seq<Indexed>)
    requires Indexable(tracks) && |Traks(tracks)| < WORD
    ensures forall b | b in TrakList(tracks) :: WellNested(b)
  {
    hide Encodable, WellNested, Trak;
    if tracks != [] {
      var n := |tracks| - 1;
      assert tracks[n].smpl != [] ==> Encodable(tracks[n]) by { assert tracks[n] in tracks; }
      TrakListNested(tracks[..n]);
      if tracks[n].smpl != [] {
        TrakNested(tracks[n], n + 1);
      }
    }
  }

  lemma UdtaNested(comment: Option<seq<Byte>>)
    requires comment.Some? && |Udta(comment)| < WORD
    ensures WellNested(Udta(comment))
  {
    hide WellNested, Skip, Value32, U32, Cat, MetaHandler, CommentItem;
    Comments();
    var handler, item := MetaHandler(), CommentItem(comment.value);
    HandlerNested();
    ItemNested(comment.value);
    CatTwo(handler, item);
    NothingBehind(handler + item);
    NestFull(META, 0, [], [handler, item]);
    var meta := FullBox(META, 0, handler + item);
    CatOne(meta);
    NothingBehind(meta);
    Nest(UDTA, [], [meta]);
  }

  lemma HandlerNested()
    ensures WellNested(MetaHandler())
  {
    hide WellNested, Skip, Value32, U32;
    Headers();
    LeafFull(HDLR, 0, ZeroBytes(4) + U32(0x6d64_6972) + ZeroBytes(16));
  }

  lemma ItemNested(text: seq<Byte>)
    requires |CommentItem(text)| < WORD
    ensures WellNested(CommentItem(text))
  {
    hide WellNested, Skip, Value32, U32, Cat;
    Comments();
    assert DATA[..4] == DATA;
    Leaf(DATA, U32(1) + U32(0) + text + [0]);
    var data := Box(DATA, U32(1) + U32(0) + text + [0]);
    CatOne(data);
    NothingBehind(data);
    Nest(CCMT, [], [data]);
    var ccmt := Box(CCMT, data);
    CatOne(ccmt);
    NothingBehind(ccmt);
    Nest(ILST, [], [ccmt]);
  }

  lemma MvhdNested(tracks: seq<Indexed>)
    requires Indexable(tracks)
    ensures WellNested(Mvhd(tracks))
  {
    hide WellNested, Skip, Value32, U32, U16, Matrix, Duration, Millis;
    Headers();
    LeafFull(MVHD, 0, ZeroBytes(8)
      + (if tracks == [] then [] else U32(1000) + U32(Millis(Duration(tracks[0].smpl), tracks[0].info.timeScale)))
      + U32(0x1_0000) + U16(0x100) + ZeroBytes(10) + Matrix() + ZeroBytes(24) + U32(|tracks| + 1));
  }

  /** Every size field of the index, at every depth, is the extent of its box, and no byte lies
      between or behind the boxes inside a box. */
  lemma MoovNested(tracks: seq<Indexed>, comment: Option<seq<Byte>>)
    requires Indexable(tracks) && |Moov(tracks, comment)| < WORD
    ensures WellNested(Moov(tracks, comment))
  {
    hide Encodable, WellNested, Skip, Value32, U32, Cat, Mvhd, Traks, TrakList, Udta;
    Containers();
    MvhdNested(tracks);
    TrakListNested(tracks);
    NoComment(comment);
    if comment.Some? {
      UdtaNested(comment);
    }
    MoovCat(tracks, comment);
    var boxes := [Mvhd(tracks)] + TrakList(tracks) + Optional(Udta(comment));
    NothingBehind(Cat(boxes));
    Nest(MOOV, [], boxes);
  }
}
