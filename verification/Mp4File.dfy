/** The boxes of a finished file of stream/minimp4.hpp, in both modes of the muxer, and what its
    demuxer finds in it. */
module Mp4File {
  import opened Seqs
  import opened Wrappers
  import opened Bits
  import opened Mp4Bytes
  import opened Mp4Boxes
  import opened Mp4Samples
  import opened Mp4Direct
  import opened Mp4Demux
  import opened Mp4Walk
  import opened Mp4Open
  import opened Mp4Reach

  function MdatList(bodies: seq<seq<Byte>>): (boxes: seq<seq<Byte>>) {
    if bodies == [] then [] else MdatList(bodies[..|bodies| - 1]) + [Mdat(bodies[|bodies| - 1])]
  }

  lemma MdatSized(data: seq<Byte>)
    requires |data| + 8 < WORD
    ensures Sized(Mdat(data)) && TypeOf(Mdat(data)) == MDAT
  {
    hide U32, Value32;
    MdatParts(data, []);
    NothingBehind(Mdat(data));
  }

  lemma {:induction false} MdatListIs(bodies: seq<seq<Byte>>)
    requires forall b | b in bodies :: |b| + 8 < WORD
    ensures Cat(MdatList(bodies)) == Mdats(bodies)
    ensures forall b | b in MdatList(bodies) :: Sized(b) && |b| >= 8 && TypeOf(b) == MDAT
  {
    hide Sized, TypeOf, Mdat, Cat;
    if bodies == [] {
      CatNone();
    } else {
      var n := |bodies| - 1;
      assert bodies[n] in bodies;
      MdatListIs(bodies[..n]);
      CatSnoc(MdatList(bodies[..n]), Mdat(bodies[n]));
      MdatSized(bodies[n]);
    }
  }

  /** The boxes tile: reading them by their size fields gives exactly the bodies written. */
  lemma ParseMdats(bodies: seq<seq<Byte>>)
    requires forall b | b in bodies :: |b| + 8 < WORD
    ensures var boxes := Children(Mdats(bodies));
            |boxes| == |bodies| && forall k | 0 <= k < |bodies| :: Body(boxes[k]) == bodies[k]
  {
    hide Sized, SizedWide, TypeOf, Cat, Children, MdatList, Mdats, Mdat;
    MdatListIs(bodies);
    ChildrenOfCat(MdatList(bodies));
    MdatListAt(bodies);
    forall k | 0 <= k < |bodies| ensures Body(Mdat(bodies[k])) == bodies[k] {
      MdatBody(bodies[k]);
    }
  }

  lemma MdatBody(data: seq<Byte>)
    ensures Body(Mdat(data)) == data
  {}

  lemma {:induction false} MdatListAt(bodies: seq<seq<Byte>>)
    ensures |MdatList(bodies)| == |bodies| && forall k | 0 <= k < |bodies| :: MdatList(bodies)[k] == Mdat(bodies[k])
  {
    hide Mdat;
    if bodies != [] {
      MdatListAt(bodies[..|bodies| - 1]);
    }
  }

  // ---------------------------------------------------------------- what stands in front

  /** A box that is passed over unread. */
  predicate Skipped(b: seq<Byte>) {
    && ((Sized(b) && |b| < WORD - 1) || SizedWide(b))
    && Unknown(KindOf(b))
  }

  lemma FtypSkipped()
    ensures Sized(FTYP) && Skipped(FTYP)
    ensures Unknown(Value32(MDAT)) && Unknown(Value32(FREE))
  {
    assert FTYP[..4] == [0, 0, 0, 0x18];
    assert TypeOf(FTYP) == [0x66, 0x74, 0x79, 0x70];
    assert KindOf(FTYP) == 0x6674_7970;
  }

  lemma SkippedPasses(b: seq<Byte>, x: Memory)
    requires Skipped(b)
    ensures Passes(b, false, 0, x, x) && b != []
  {
    hide Passes, Announces, Value32;
    if Sized(b) && |b| < WORD - 1 {
      UnknownPasses(b, 0, x);
    } else {
      WideAnnounced(b, x);
      UnknownStored(KindOf(b), b[16..], x);
      OverPasses(b, WideHead(b), false, 0, x);
    }
  }

  lemma {:induction false} FrontPasses(front: seq<seq<Byte>>, x: Memory)
    requires forall b | b in front :: Skipped(b)
    ensures Passes(Cat(front), false, 0, x, x)
  {
    hide Passes, Skipped;
    if front == [] {
      NonePasses(false, 0, x);
    } else {
      assert front[0] in front;
      SkippedPasses(front[0], x);
      FrontPasses(front[1..], x);
      ThenMaybe(front[0], Cat(front[1..]), false, 0, x, x);
    }
  }

  // ---------------------------------------------------------------- the whole file

  /** The pass over a whole file begins in front of it. */
  lemma AtStart(file: seq<Byte>)
    ensures Before(file, START, file, false, 0, NONE)
    ensures Walk(file, After(START, |file|, NONE)) == Some(NONE)
  {
    assert file[0..|file|] == file;
  }

  /** A file whose last box is an index with tracks that can all be read. */
  lemma FileOpens(front: seq<seq<Byte>>, tracks: seq<Indexed>, comment: Option<seq<Byte>>)
    requires Indexable(tracks) && |Moov(tracks, comment)| < WORD - 1 && (forall b | b in front :: Skipped(b))
    requires AllLegible(tracks)
    ensures Opened(Cat(front) + Moov(tracks, comment))
         == if FoundList(tracks) == [] then None else Some(FoundList(tracks))
  {
    hide Passes, Skipped, Moov, Before, Step, FoundList, Cat, AllLegible, Indexable;
    var moov := Moov(tracks, comment);
    var file := Cat(front) + moov;
    FrontPasses(front, NONE);
    var y := MoovPasses(tracks, comment);
    MoovLength(tracks, comment);
    Then(Cat(front), moov, false, 0, NONE, NONE, y);
    AtStart(file);
    PassesAt(file, START, file, false, 0, NONE, y);
  }

  /** With a track that cannot be read: if the file is opened at all, the tracks in front of it
      are found, and this one without a table. */
  lemma FileStrands(front: seq<seq<Byte>>, tracks: seq<Indexed>, comment: Option<seq<Byte>>, u: nat)
    requires Indexable(tracks) && |Moov(tracks, comment)| < WORD - 1 && (forall b | b in front :: Skipped(b))
    requires u < |tracks| && FirstIllegible(tracks, u) && |Cat(front) + Moov(tracks, comment)| < FILE_LIMIT
    ensures var r := Opened(Cat(front) + Moov(tracks, comment));
            r.Some? ==>
              var n := |r.value| - 1;
              n >= 0 && r.value[..n] == FoundList(tracks[..u]) && SameTables(r.value[n], NOTHING)
  {
    hide Passes, Strands, Skipped, Moov, Before, Walk, FoundList, Cat, FirstIllegible;
    var moov, y := Moov(tracks, comment), Reading(FoundList(tracks[..u]), NOTHING);
    var file := Cat(front) + moov;
    FrontPasses(front, NONE);
    MoovStrands(tracks, comment, u);
    MoovLength(tracks, comment);
    ThenStrands(Cat(front), moov, false, 0, NONE, NONE, y);
    AtStart(file);
    StrandsAt(file, START, file, false, 0, NONE, y);
  }

  lemma {:induction false} TablesFound(tracks: seq<Indexed>)
    requires Indexable(tracks)
    ensures forall f | f in FoundList(tracks) :: f.stts.Some?
  {
    hide Encodable, ConfigRead, Contents;
    if tracks != [] {
      TablesFound(tracks[..|tracks| - 1]);
    }
  }

  /** Every table of every track is found if and only if every track in the index can be read. */
  lemma OpenedIff(front: seq<seq<Byte>>, tracks: seq<Indexed>, comment: Option<seq<Byte>>)
    requires Indexable(tracks) && |Moov(tracks, comment)| < WORD - 1 && (forall b | b in front :: Skipped(b))
    requires |Cat(front) + Moov(tracks, comment)| < FILE_LIMIT && FoundList(tracks) != []
    ensures Opened(Cat(front) + Moov(tracks, comment)) == Some(FoundList(tracks)) <==> AllLegible(tracks)
  {
    hide Skipped, Moov, Opened, FoundList, Cat, FirstIllegible, AllLegible, Indexable;
    if AllLegible(tracks) {
      FileOpens(front, tracks, comment);
    } else {
      var u := FirstOne(tracks);
      FirstInside(tracks, u);
      FileStrands(front, tracks, comment, u);
      TablesFound(tracks);
      var r := Opened(Cat(front) + Moov(tracks, comment));
      if r.Some? {
        LastWithout(r.value, FoundList(tracks));
      }
    }
  }

  lemma LastWithout(r: seq<Found>, list: seq<Found>)
    requires r != [] && SameTables(r[|r| - 1], NOTHING) && forall f | f in list :: f.stts.Some?
    ensures r != list
  {
    assert r[|r| - 1] in r;
  }

  lemma FirstInside(tracks: seq<Indexed>, u: nat)
    requires Indexable(tracks) && FirstIllegible(tracks, u)
    ensures u < |tracks|
  {}

  lemma {:induction false} MdatsSkipped(bodies: seq<seq<Byte>>)
    requires forall b | b in bodies :: |b| + 8 < WORD - 1
    ensures forall b | b in MdatList(bodies) :: Skipped(b)
  {
    hide Mdat, Unknown, Value32;
    if bodies != [] {
      var n := |bodies| - 1;
      assert bodies[n] in bodies;
      MdatsSkipped(bodies[..n]);
      FtypSkipped();
      MdatSized(bodies[n]);
    }
  }

  /** In sequential mode: ftyp, an mdat for each body, and the index. */
  lemma SeqMoov(bodies: seq<seq<Byte>>, moov: seq<Byte>)
    requires forall b | b in bodies :: |b| + 8 < WORD - 1
    requires Sized(moov)
    ensures FTYP + Mdats(bodies) + moov == Cat([FTYP] + MdatList(bodies)) + moov
    ensures forall b | b in [FTYP] + MdatList(bodies) :: Skipped(b)
    ensures Children(FTYP + Mdats(bodies) + moov) == [FTYP] + MdatList(bodies) + [moov]
  {
    hide Sized, SizedWide, Cat, Children, MdatList, Mdats, Skipped;
    FtypSkipped();
    MdatListIs(bodies);
    MdatsSkipped(bodies);
    CatOne(FTYP);
    CatJoin([FTYP], MdatList(bodies));
    CatSnoc([FTYP] + MdatList(bodies), moov);
    ChildrenOfCat([FTYP] + MdatList(bodies) + [moov]);
  }

  /** In the other mode: between ftyp and the index one mdat with a 64-bit size, or an empty free
      box and one mdat. */
  function DirectFront(file: seq<Byte>, writePos: nat): (boxes: seq<seq<Byte>>)
    requires 40 <= writePos <= |file|
  {
    if writePos - 24 > 0xffff_fffe then [FTYP, file[24..writePos]] else [FTYP, file[24..32], file[32..writePos]]
  }

  lemma DirectMoov(file: seq<Byte>, writePos: nat, moov: seq<Byte>)
    requires 40 <= writePos <= |file| && DirectFile(file, writePos, moov) && writePos - 24 < WORD * WORD
    requires Sized(moov)
    ensures file == Cat(DirectFront(file, writePos)) + moov
    ensures forall b | b in DirectFront(file, writePos) :: Skipped(b)
    ensures Children(file) == DirectFront(file, writePos) + [moov]
  {
    hide Sized, SizedWide, Children, DirectFile, DirectFront, Cat, Skipped;
    if writePos - 24 > 0xffff_fffe {
      WideFront(file, writePos, moov);
    } else {
      NarrowFront(file, writePos, moov);
    }
    SkippedSized(DirectFront(file, writePos));
    CatSnoc(DirectFront(file, writePos), moov);
    ChildrenOfCat(DirectFront(file, writePos) + [moov]);
  }

  lemma SkippedSized(front: seq<seq<Byte>>)
    requires forall b | b in front :: Skipped(b)
    ensures forall b | b in front :: Sized(b) || SizedWide(b)
  {}

  lemma WideFront(file: seq<Byte>, writePos: nat, moov: seq<Byte>)
    requires 40 <= writePos <= |file| && DirectFile(file, writePos, moov) && writePos - 24 < WORD * WORD
    requires writePos - 24 > 0xffff_fffe
    ensures file == Cat(DirectFront(file, writePos)) + moov && forall b | b in DirectFront(file, writePos) :: Skipped(b)
  {
    hide Sized, SizedWide, DirectFile, Cat, Value32, Unknown;
    var b := file[24..writePos];
    FtypSkipped();
    ThreeParts(file, 24, writePos);
    WidePart(file, writePos, moov);
    CatTwo(FTYP, b);
    Assoc(FTYP, b, moov);
  }

  lemma NarrowFront(file: seq<Byte>, writePos: nat, moov: seq<Byte>)
    requires 40 <= writePos <= |file| && DirectFile(file, writePos, moov) && writePos - 24 <= 0xffff_fffe
    ensures file == Cat(DirectFront(file, writePos)) + moov && forall b | b in DirectFront(file, writePos) :: Skipped(b)
  {
    hide Sized, SizedWide, DirectFile, Cat, Value32, Unknown;
    var a, b := file[24..32], file[32..writePos];
    FtypSkipped();
    ThreeParts(file, 24, writePos);
    NarrowParts(file, writePos, moov);
    CatThree(FTYP, a, b);
    Slices(file, 24, 32, writePos);
    Assoc(FTYP, a, b);
    Assoc(FTYP, a + b, moov);
  }

  lemma WidePart(file: seq<Byte>, writePos: nat, moov: seq<Byte>)
    requires DirectFile(file, writePos, moov) && writePos - 24 < WORD * WORD && writePos - 24 > 0xffff_fffe
    ensures |file[24..writePos]| >= 8 && SizedWide(file[24..writePos]) && TypeOf(file[24..writePos]) == MDAT
    ensures file[..24] == FTYP && file[writePos..] == moov
  {
    hide Value32, U32;
    var size, b, h := writePos - 24, file[24..writePos], DirectHeader(writePos - 24);
    HeaderParts(size);
    HeaderOf(file, writePos);
    Value32OfU32(1);
    Value32OfU32(size / WORD);
    Value32OfU32(size % WORD);
    WideSize(size);
  }

  lemma NarrowParts(file: seq<Byte>, writePos: nat, moov: seq<Byte>)
    requires DirectFile(file, writePos, moov) && writePos - 24 <= 0xffff_fffe
    ensures Sized(file[24..32]) && TypeOf(file[24..32]) == FREE
    ensures |file[32..writePos]| >= 8 && Sized(file[32..writePos]) && TypeOf(file[32..writePos]) == MDAT
    ensures file[..24] == FTYP && file[writePos..] == moov
  {
    hide Value32, U32;
    HeaderParts(writePos - 24);
    HeaderOf(file, writePos);
    Value32OfU32(8);
    Value32OfU32(writePos - 32);
    var a, b := file[24..32], file[32..writePos];
    Inner(file, 24, 32, 0, 4);
    Inner(file, 24, 32, 4, 8);
    Inner(file, 32, writePos, 0, 4);
    Inner(file, 32, writePos, 4, 8);
  }

  /** The header's four parts, wherever the boxes begin. */
  lemma HeaderOf(file: seq<Byte>, writePos: nat)
    requires 40 <= writePos <= |file| && file[24..40] == DirectHeader(writePos - 24)
    ensures var h := DirectHeader(writePos - 24);
            && file[24..28] == h[0..4] && file[28..32] == h[4..8]
            && file[32..36] == h[8..12] && file[36..40] == h[12..16]
    ensures var b := file[24..writePos];
            b[..4] == file[24..28] && b[4..8] == file[28..32] && b[8..12] == file[32..36] && b[12..16] == file[36..40]
  {
    hide DirectHeader;
    Inner(file, 24, 40, 0, 4);
    Inner(file, 24, 40, 4, 8);
    Inner(file, 24, 40, 8, 12);
    Inner(file, 24, 40, 12, 16);
    Inner(file, 24, writePos, 0, 4);
    Inner(file, 24, writePos, 4, 8);
    Inner(file, 24, writePos, 8, 12);
    Inner(file, 24, writePos, 12, 16);
  }
}
