/** The index as a reader sees it: at every level the boxes found by their size fields alone
    are the boxes written, one behind the other and to the end (section 4.2 of
    ISO/IEC 14496-12). */
module Mp4Tree {
  import opened Seqs
  import opened Wrappers
  import opened Bits
  import opened Mp4Bytes
  import opened Mp4Boxes

  lemma BoxSized(kind: seq<Byte>, content: seq<Byte>)
    requires 4 <= |kind| && |Box(kind, content)| < WORD
    ensures Sized(Box(kind, content))
  {
    hide Value32, U32;
    var b := Box(kind, content);
    assert b[..4] == U32(|b|);
    Value32OfU32(|b|);
  }

  lemma FullBoxSized(kind: seq<Byte>, flags: nat, content: seq<Byte>)
    requires |kind| == 4 && |FullBox(kind, flags, content)| < WORD
    ensures Sized(FullBox(kind, flags, content))
  {
    BoxSized(kind + U32(flags), content);
  }

  lemma BodyOfBox(kind: seq<Byte>, content: seq<Byte>)
    requires |kind| == 4
    ensures Body(Box(kind, content)) == content
  {}

  /** An optional box, left out when empty. */
  function Optional(b: seq<Byte>): seq<seq<Byte>> {
    if b == [] then [] else [b]
  }

  lemma CatOptional(b: seq<Byte>)
    ensures Cat(Optional(b)) == b
  {
    if b != [] {
      assert [b][1..] == [];
      assert Cat([b]) == b + Cat([]);
      NothingBehind(b);
    }
  }

  // ---------------------------------------------------------------- the levels of the index

  lemma TablesSized(t: Indexed)
    requires Encodable(t) && |Stbl(t)| < WORD
    ensures Sized(Stsd(t)) && Sized(Stts(t.smpl)) && Sized(Stsc()) && Sized(Stsz(t.smpl)) && Sized(ChunkOffsets(t.smpl))
    ensures Stss(t.smpl) != [] ==> Sized(Stss(t.smpl))
  {
    hide Sized, AudioEntry, VideoEntry, RunBytes, Runs, Sizes, Offsets, WideOffsets, SyncNumbers, SyncCount, U32;
    FullBoxSized(STSD, 0, U32(1)
      + if t.info.media != Video then AudioEntry(t) else if t.info.objectType == AVC then VideoEntry(t) else []);
    FullBoxSized(STTS, 0, U32(|Runs(t.smpl, 0, 1)|) + RunBytes(Runs(t.smpl, 0, 1)));
    FullBoxSized(STSC, 0, U32(1) + U32(1) + U32(1) + U32(1));
    FullBoxSized(STSZ, 0, U32(0) + U32(|t.smpl|) + Sizes(t.smpl));
    if t.smpl != [] && t.smpl[|t.smpl| - 1].offset >= WORD {
      FullBoxSized(CO64, 0, U32(|t.smpl|) + WideOffsets(t.smpl));
    } else {
      FullBoxSized(STCO, 0, U32(|t.smpl|) + Offsets(t.smpl));
    }
    if SyncCount(t.smpl) != |t.smpl| {
      FullBoxSized(STSS, 0, U32(SyncCount(t.smpl)) + SyncNumbers(t.smpl));
    }
  }

  lemma StblCat(t: Indexed)
    requires Encodable(t)
    ensures Cat([Stsd(t), Stts(t.smpl), Stsc(), Stsz(t.smpl), ChunkOffsets(t.smpl)] + Optional(Stss(t.smpl)))
         == Stsd(t) + Stts(t.smpl) + Stsc() + Stsz(t.smpl) + ChunkOffsets(t.smpl) + Stss(t.smpl)
  {
    hide Encodable, Stsd, Stts, Stsc, Stsz, ChunkOffsets, Stss, Cat;
    var a, b, c, d, e, f := Stsd(t), Stts(t.smpl), Stsc(), Stsz(t.smpl), ChunkOffsets(t.smpl), Stss(t.smpl);
    CatFive(a, b, c, d, e);
    CatJoin([a, b, c, d, e], Optional(f));
    CatOptional(f);
  }

  /** The sample tables of a track. */
  lemma StblChildren(t: Indexed)
    requires Encodable(t) && |Stbl(t)| < WORD
    ensures Children(Body(Stbl(t)))
         == [Stsd(t), Stts(t.smpl), Stsc(), Stsz(t.smpl), ChunkOffsets(t.smpl)] + Optional(Stss(t.smpl))
  {
    hide Box, Encodable, Sized, Stsd, Stts, Stsc, Stsz, ChunkOffsets, Stss, Cat, Children;
    TablesSized(t);
    StblCat(t);
    ChildrenOfBox(STBL, [Stsd(t), Stts(t.smpl), Stsc(), Stsz(t.smpl), ChunkOffsets(t.smpl)] + Optional(Stss(t.smpl)));
  }

  /** The three container boxes of a track. */
  function Minf(t: Indexed): seq<Byte>
    requires Encodable(t)
  {
    Box(MINF, MediaHeader(t.info.media) + Dinf() + Stbl(t))
  }

  function Mdia(t: Indexed): seq<Byte>
    requires Encodable(t)
  {
    Box(MDIA, Mdhd(t) + Hdlr(t.info.media) + Minf(t))
  }

  lemma MinfCat(t: Indexed)
    requires Encodable(t)
    ensures Cat(Optional(MediaHeader(t.info.media)) + [Dinf(), Stbl(t)])
         == MediaHeader(t.info.media) + Dinf() + Stbl(t)
  {
    hide Encodable, MediaHeader, Dinf, Stbl, Cat;
    var a, b, c := MediaHeader(t.info.media), Dinf(), Stbl(t);
    CatOptional(a);
    CatTwo(b, c);
    CatJoin(Optional(a), [b, c]);
    Assoc(a, b, c);
  }

  lemma MinfChildren(t: Indexed)
    requires Encodable(t) && |Minf(t)| < WORD
    ensures Children(Body(Minf(t))) == Optional(MediaHeader(t.info.media)) + [Dinf(), Stbl(t)]
  {
    hide Box, Encodable, Sized, MediaHeader, Dinf, Stbl, Cat, Children;
    MediaSized(t.info.media);
    StblSized(t);
    MinfCat(t);
    ChildrenOfBox(MINF, Optional(MediaHeader(t.info.media)) + [Dinf(), Stbl(t)]);
  }

  lemma MediaSized(m: Media)
    ensures MediaHeader(m) != [] ==> Sized(MediaHeader(m))
    ensures Sized(Dinf()) && Sized(Hdlr(m))
  {
    hide Sized, U32, HandlerName, HandlerType;
    FullBoxSized(SMHD, 0, ZeroBytes(4));
    FullBoxSized(VMHD, 1, ZeroBytes(8));
    BoxSized(DINF, FullBox(DREF, 0, U32(1) + FullBox(URL, 1, [])));
    FullBoxSized(HDLR, 0, ZeroBytes(4) + U32(HandlerType(m)) + ZeroBytes(12) + HandlerName(m));
  }

  lemma StblSized(t: Indexed)
    requires Encodable(t) && |Stbl(t)| < WORD
    ensures Sized(Stbl(t))
  {
    hide Encodable, Sized, SizedWide, Stsd, Stts, Stsc, Stsz, ChunkOffsets, Stss;
    BoxSized(STBL, Stsd(t) + Stts(t.smpl) + Stsc() + Stsz(t.smpl) + ChunkOffsets(t.smpl) + Stss(t.smpl));
  }

  lemma HeadersSized(t: Indexed, id: nat)
    requires Encodable(t)
    ensures Sized(Mdhd(t)) && Sized(Tkhd(t, id))
  {
    hide Sized, U32, U16, Duration, Language, TrackTimes, TrackShape;
    FullBoxSized(MDHD, 0, ZeroBytes(8) + U32(t.info.timeScale) + U32(Duration(t.smpl))
      + U16(Language(t.info.language)) + U16(0));
    FullBoxSized(TKHD, 7, TrackTimes(t, id) + TrackShape(t.info));
  }

  lemma MdiaChildren(t: Indexed)
    requires Encodable(t) && |Mdia(t)| < WORD
    ensures Children(Body(Mdia(t))) == [Mdhd(t), Hdlr(t.info.media), Minf(t)]
  {
    hide Box, Encodable, Sized, Mdhd, Hdlr, Minf, Tkhd, Cat, Children;
    MediaSized(t.info.media);
    HeadersSized(t, 0);
    MinfSized(t);
    CatThree(Mdhd(t), Hdlr(t.info.media), Minf(t));
    ChildrenOfBox(MDIA, [Mdhd(t), Hdlr(t.info.media), Minf(t)]);
  }

  lemma MinfSized(t: Indexed)
    requires Encodable(t) && |Minf(t)| < WORD
    ensures Sized(Minf(t))
  {
    hide Box, Sized, Encodable, MediaHeader, Dinf, Stbl;
    BoxSized(MINF, MediaHeader(t.info.media) + Dinf() + Stbl(t));
  }

  lemma TrakChildren(t: Indexed, id: nat)
    requires Encodable(t) && |Trak(t, id)| < WORD
    ensures Children(Body(Trak(t, id))) == [Tkhd(t, id), Mdia(t)]
  {
    hide Box, Trak, Encodable, Sized, Mdia, Tkhd, Cat, Children;
    HeadersSized(t, id);
    TrakParts(t, id);
    MdiaSized(t);
    CatTwo(Tkhd(t, id), Mdia(t));
    ChildrenOfBox(TRAK, [Tkhd(t, id), Mdia(t)]);
  }

  /** What is written into a box is what it holds. */
  lemma ChildrenOfBox(kind: seq<Byte>, boxes: seq<seq<Byte>>)
    requires |kind| == 4 && forall b | b in boxes :: Sized(b)
    ensures Children(Body(Box(kind, Cat(boxes)))) == boxes
  {
    hide Box, Sized, SizedWide, Cat, Children;
    BodyOfBox(kind, Cat(boxes));
    ChildrenOfCat(boxes);
  }

  lemma MdiaSized(t: Indexed)
    requires Encodable(t) && |Mdia(t)| < WORD
    ensures Sized(Mdia(t))
  {
    hide Box, Sized, Encodable, Minf, Mdhd, Hdlr;
    BoxSized(MDIA, Mdhd(t) + Hdlr(t.info.media) + Minf(t));
  }

  lemma TrakParts(t: Indexed, id: nat)
    requires Encodable(t)
    ensures Trak(t, id) == Box(TRAK, Tkhd(t, id) + Mdia(t)) && |Mdia(t)| < |Trak(t, id)|
  {
    hide Encodable, Mdhd, Hdlr, Tkhd, MediaHeader, Dinf, Stbl;
  }

  /** The trak boxes of an index. */
  function TrakList(tracks: seq<Indexed>): (boxes: seq<seq<Byte>>)
    requires Indexable(tracks)
  {
    if tracks == [] then []
    else
      var n := |tracks| - 1;
      TrakList(tracks[..n]) + if tracks[n].smpl == [] then [] else [Trak(tracks[n], n + 1)]
  }

  lemma {:induction false} TrakListIs(tracks: seq<Indexed>)
    requires Indexable(tracks) && |Traks(tracks)| < WORD
    ensures Cat(TrakList(tracks)) == Traks(tracks) && forall b | b in TrakList(tracks) :: Sized(b)
  {
    hide Encodable, Sized, SizedWide, Trak, Cat;
    if tracks == [] {
      CatNone();
    } else {
      var n := |tracks| - 1;
      assert tracks[n].smpl != [] ==> Encodable(tracks[n]) by { assert tracks[n] in tracks; }
      TrakListIs(tracks[..n]);
      if tracks[n].smpl == [] {
        NothingBehind(TrakList(tracks[..n]));
        NothingBehind(Traks(tracks[..n]));
      } else {
        CatSnoc(TrakList(tracks[..n]), Trak(tracks[n], n + 1));
        TrakSized(tracks[n], n + 1);
      }
    }
  }

  lemma TrakSized(t: Indexed, id: nat)
    requires Encodable(t) && |Trak(t, id)| < WORD
    ensures Sized(Trak(t, id))
  {
    hide Encodable, Sized, SizedWide, Mdia, Tkhd;
    TrakParts(t, id);
    BoxSized(TRAK, Tkhd(t, id) + Mdia(t));
  }

  lemma MoovCat(tracks: seq<Indexed>, comment: Option<seq<Byte>>)
    requires Indexable(tracks) && |Traks(tracks)| < WORD
    ensures Cat([Mvhd(tracks)] + TrakList(tracks) + Optional(Udta(comment)))
         == Mvhd(tracks) + Traks(tracks) + Udta(comment)
  {
    hide Encodable, Mvhd, Traks, TrakList, Udta, Cat;
    var a, c := Mvhd(tracks), Udta(comment);
    TrakListIs(tracks);
    CatOne(a);
    CatOptional(c);
    CatJoin([a], TrakList(tracks));
    CatJoin([a] + TrakList(tracks), Optional(c));
  }

  /** The whole index: its own size, and the movie header, the tracks and the comment in it. */
  lemma MoovChildren(tracks: seq<Indexed>, comment: Option<seq<Byte>>)
    requires Indexable(tracks) && |Moov(tracks, comment)| < WORD
    ensures Sized(Moov(tracks, comment))
    ensures Children(Body(Moov(tracks, comment))) == [Mvhd(tracks)] + TrakList(tracks) + Optional(Udta(comment))
  {
    hide Box, Encodable, Sized, SizedWide, Mvhd, Traks, TrakList, Udta, Cat, Children;
    var a, b, c := Mvhd(tracks), Traks(tracks), Udta(comment);
    BoxSized(MOOV, a + b + c);
    BodyOfBox(MOOV, a + b + c);
    MvhdSized(tracks);
    UdtaSized(comment);
    TrakListIs(tracks);
    MoovCat(tracks, comment);
    ChildrenOfCat([a] + TrakList(tracks) + Optional(c));
  }

  lemma MvhdSized(tracks: seq<Indexed>)
    requires Indexable(tracks)
    ensures Sized(Mvhd(tracks))
  {
    hide Sized, U32, U16, Matrix, Duration, Millis;
    FullBoxSized(MVHD, 0, ZeroBytes(8)
      + (if tracks == [] then [] else U32(1000) + U32(Millis(Duration(tracks[0].smpl), tracks[0].info.timeScale)))
      + U32(0x1_0000) + U16(0x100) + ZeroBytes(10) + Matrix() + ZeroBytes(24) + U32(|tracks| + 1));
  }

  lemma NoComment(comment: Option<seq<Byte>>)
    ensures comment.None? ==> Udta(comment) == []
  {}

  lemma UdtaSized(comment: Option<seq<Byte>>)
    requires |Udta(comment)| < WORD
    ensures comment.None? ==> Udta(comment) == []
    ensures Udta(comment) != [] ==> Sized(Udta(comment))
  {
    hide Sized, MetaHandler, CommentItem, FullBox;
    if comment.Some? {
      BoxSized(UDTA, FullBox(META, 0, MetaHandler() + CommentItem(comment.value)));
    }
  }
}
