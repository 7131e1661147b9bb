/** How far the demuxer of stream/minimp4.hpp comes in an index: to its end exactly if every track
    in it can be read. */
module Mp4Reach {
  import opened Seqs
  import opened Wrappers
  import opened Bits
  import opened Mp4Bytes
  import opened Mp4Boxes
  import opened Mp4Tree
  import opened Mp4Demux
  import opened Mp4Walk
  import opened Mp4Descriptors
  import opened Mp4Open

  // ---------------------------------------------------------------- one track

  /** What is found of a track. */
  function FoundOf(t: Indexed): Found
    requires Encodable(t)
  {
    WithTables(Configured(ConfigRead(t)), t.smpl)
  }

  lemma ThenOptional(a: seq<Byte>, b: seq<Byte>, od: bool, d: nat, x: Memory, y: Memory, z: Memory)
    requires Passes(a, od, d, x, y) && Fills(b, od, d, y, z) && a != []
    ensures Fills(a + b, od, d, x, z)
  {
    hide Before, Walk, Passes;
    if b == [] {
      NothingBehind(a);
      PassesFills(a, od, d, x, y);
    } else {
      ThenFills(a, b, od, d, x, y, z);
    }
  }

  lemma TablesFill(t: Indexed, done: seq<Found>)
    requires Encodable(t) && |Stbl(t)| < WORD - 1 && Legible(t)
    ensures Fills(Stsd(t) + Stts(t.smpl) + Stsc() + Stsz(t.smpl) + ChunkOffsets(t.smpl) + Stss(t.smpl), false, 5,
                  Reading(done, NOTHING), Reading(done, FoundOf(t)))
  {
    hide Passes, Fills, Encodable, Stsd, Stts, Stsc, Stsz, ChunkOffsets, Stss, Legible, ConfigRead, Contents, Wide;
    var smpl, f0 := t.smpl, Configured(ConfigRead(t));
    TablesThere(t);
    var f1 := f0.(stts := Some(Contents(Stts(smpl))));
    var f2 := f1.(stsc := Some(Contents(Stsc())));
    var f3 := f2.(stsz := Some(Contents(Stsz(smpl))));
    var f4 := f3.(offsets := Some(Contents(ChunkOffsets(smpl))), wide := Wide(smpl));
    var x, y0, y1, y2, y3, y4 := Reading(done, NOTHING), Reading(done, f0), Reading(done, f1), Reading(done, f2),
                                 Reading(done, f3), Reading(done, f4);
    StsdPasses(t, done);
    SttsPasses(smpl, done, f0);
    StscPasses(done, f1);
    StszPasses(smpl, done, f2);
    OffsetsPasses(smpl, done, f3);
    StssFills(smpl, y4);
    Then(Stsd(t), Stts(smpl), false, 5, x, y0, y1);
    Then(Stsd(t) + Stts(smpl), Stsc(), false, 5, x, y1, y2);
    Then(Stsd(t) + Stts(smpl) + Stsc(), Stsz(smpl), false, 5, x, y2, y3);
    Then(Stsd(t) + Stts(smpl) + Stsc() + Stsz(smpl), ChunkOffsets(smpl), false, 5, x, y3, y4);
    ThenOptional(Stsd(t) + Stts(smpl) + Stsc() + Stsz(smpl) + ChunkOffsets(smpl), Stss(smpl), false, 5, x, y4, y4);
  }

  lemma TablesThere(t: Indexed)
    requires Encodable(t)
    ensures |Stsd(t)| >= 12 && |Stts(t.smpl)| >= 12 && |Stsc()| >= 12 && |Stsz(t.smpl)| >= 12
    ensures |ChunkOffsets(t.smpl)| >= 12
    ensures |Stbl(t)| == 8 + |Stsd(t)| + |Stts(t.smpl)| + |Stsc()| + |Stsz(t.smpl)| + |ChunkOffsets(t.smpl)|
                       + |Stss(t.smpl)|
  {
    hide Encodable, AudioEntry, VideoEntry, RunBytes, Runs, Stss;
  }

  lemma StblPasses(t: Indexed, done: seq<Found>)
    requires Encodable(t) && |Stbl(t)| < WORD - 1 && Legible(t)
    ensures Passes(Stbl(t), false, 4, Reading(done, NOTHING), Reading(done, FoundOf(t)))
  {
    hide Passes, Fills, Encodable, Stsd, Stts, Stsc, Stsz, ChunkOffsets, Stss, Legible, FoundOf, Box;
    TablesFill(t, done);
    WrapPasses(STBL, Stsd(t) + Stts(t.smpl) + Stsc() + Stsz(t.smpl) + ChunkOffsets(t.smpl) + Stss(t.smpl), 4,
               Reading(done, NOTHING), Reading(done, FoundOf(t)));
  }

  lemma StblStrands(t: Indexed, done: seq<Found>)
    requires Encodable(t) && |Stbl(t)| < WORD - 1 && !Legible(t)
    ensures Strands(Stbl(t), false, 4, Reading(done, NOTHING), Reading(done, NOTHING))
  {
    hide Strands, Encodable, Stsd, Stts, Stsc, Stsz, ChunkOffsets, Stss, Legible, Box;
    var x := Reading(done, NOTHING);
    TablesThere(t);
    StsdStrands(t, done);
    var a, b, c, d, e := Stsd(t), Stts(t.smpl), Stsc(), Stsz(t.smpl), ChunkOffsets(t.smpl);
    StrandsBefore(a, b, false, 5, x, x);
    StrandsBefore(a + b, c, false, 5, x, x);
    StrandsBefore(a + b + c, d, false, 5, x, x);
    StrandsBefore(a + b + c + d, e, false, 5, x, x);
    StrandsBefore(a + b + c + d + e, Stss(t.smpl), false, 5, x, x);
    WrapStrands(STBL, a + b + c + d + e + Stss(t.smpl), 4, x, x);
  }

  /** What stands in front of stbl in minf. */
  function MinfFront(m: Media): (b: seq<Byte>)
    ensures 0 < |b| <= 56
  {
    MediaHeader(m) + Dinf()
  }

  lemma MinfFrontPasses(m: Media, x: Memory)
    ensures Passes(MinfFront(m), false, 4, x, x)
  {
    hide Passes, Box, MediaHeader;
    UnknownTypes();
    var dref := FullBox(DREF, 0, U32(1) + FullBox(URL, 1, []));
    DrefPasses(x);
    PassesFills(dref, false, 5, x, x);
    WrapPasses(DINF, dref, 4, x, x);
    MediaHeaderPasses(m, x);
    Then(MediaHeader(m), Dinf(), false, 4, x, x, x);
  }

  lemma DrefPasses(x: Memory)
    ensures |FullBox(DREF, 0, U32(1) + FullBox(URL, 1, []))| == 28
    ensures Passes(FullBox(DREF, 0, U32(1) + FullBox(URL, 1, [])), false, 5, x, x)
  {
    hide Passes, Box;
    UnknownTypes();
    FlaggedPasses(DREF, 0, U32(1) + FullBox(URL, 1, []), 5, x);
  }

  lemma MediaHeaderPasses(m: Media, x: Memory)
    ensures Passes(MediaHeader(m), false, 4, x, x)
  {
    hide Passes, FullBox;
    UnknownTypes();
    match m
    case Audio => FlaggedPasses(SMHD, 0, ZeroBytes(4), 4, x);
    case Video => FlaggedPasses(VMHD, 1, ZeroBytes(8), 4, x);
    case Private => NonePasses(false, 4, x);
  }

  lemma NonePasses(od: bool, d: nat, x: Memory)
    ensures Passes([], od, d, x, x)
  {
    forall file, s | Before(file, s, [], od, d, x) ensures After(s, 0, x) == s {
      NothingLowered(s.stack);
    }
  }

  lemma NothingLowered(stack: seq<Level>)
    requires stack != [] ==> Left(stack) > 0
    ensures Popped(Lower(stack, 0)) == stack
  {}

  lemma MinfParts(t: Indexed)
    requires Encodable(t)
    ensures Minf(t) == Box(MINF, MinfFront(t.info.media) + Stbl(t)) && |Minf(t)| > |Stbl(t)| > 0
  {
    hide Encodable, MediaHeader, Dinf, Stsd, Stts, Stsc, Stsz, ChunkOffsets, Stss;
  }

  lemma MinfPasses(t: Indexed, done: seq<Found>)
    requires Encodable(t) && |Minf(t)| < WORD - 1 && Legible(t)
    ensures Passes(Minf(t), false, 3, Reading(done, NOTHING), Reading(done, FoundOf(t)))
  {
    hide Passes, Fills, Encodable, Stbl, MinfFront, Minf, Legible, FoundOf, Box;
    var x, y := Reading(done, NOTHING), Reading(done, FoundOf(t));
    MinfParts(t);
    MinfFrontPasses(t.info.media, x);
    StblPasses(t, done);
    PassesFills(Stbl(t), false, 4, x, y);
    ThenFills(MinfFront(t.info.media), Stbl(t), false, 4, x, x, y);
    WrapPasses(MINF, MinfFront(t.info.media) + Stbl(t), 3, x, y);
  }

  lemma MinfStrands(t: Indexed, done: seq<Found>)
    requires Encodable(t) && |Minf(t)| < WORD - 1 && !Legible(t)
    ensures Strands(Minf(t), false, 3, Reading(done, NOTHING), Reading(done, NOTHING))
  {
    hide Passes, Strands, Encodable, Stbl, MinfFront, Minf, Legible, Box;
    var x := Reading(done, NOTHING);
    MinfParts(t);
    MinfFrontPasses(t.info.media, x);
    StblStrands(t, done);
    ThenStrands(MinfFront(t.info.media), Stbl(t), false, 4, x, x, x);
    WrapStrands(MINF, MinfFront(t.info.media) + Stbl(t), 3, x, x);
  }

  /** What stands in front of minf in mdia. */
  function MdiaFront(t: Indexed): (b: seq<Byte>)
    requires Encodable(t)
    ensures 0 < |b| <= 77
  {
    Mdhd(t) + Hdlr(t.info.media)
  }

  lemma MdiaFrontPasses(t: Indexed, x: Memory)
    requires Encodable(t) && x.current.Some?
    ensures Passes(MdiaFront(t), false, 3, x, x)
  {
    hide Passes, FullBox, U32, U16, Duration, Language, HandlerName, HandlerType;
    FullPasses(MDHD, ZeroBytes(8) + U32(t.info.timeScale) + U32(Duration(t.smpl))
      + U16(Language(t.info.language)) + U16(0), 3, x);
    FullPasses(HDLR, ZeroBytes(4) + U32(HandlerType(t.info.media)) + ZeroBytes(12) + HandlerName(t.info.media), 3, x);
    Then(Mdhd(t), Hdlr(t.info.media), false, 3, x, x, x);
  }

  lemma MdiaParts(t: Indexed)
    requires Encodable(t)
    ensures Mdia(t) == Box(MDIA, MdiaFront(t) + Minf(t)) && |Mdia(t)| > |Minf(t)| > 0
  {
    hide Encodable, Mdhd, Hdlr, MediaHeader, Dinf, Stbl;
  }

  lemma MdiaPasses(t: Indexed, done: seq<Found>)
    requires Encodable(t) && |Mdia(t)| < WORD - 1 && Legible(t)
    ensures Passes(Mdia(t), false, 2, Reading(done, NOTHING), Reading(done, FoundOf(t)))
  {
    hide Passes, Fills, Encodable, MdiaFront, Minf, Mdia, Legible, FoundOf, Box;
    var x, y := Reading(done, NOTHING), Reading(done, FoundOf(t));
    MdiaParts(t);
    MdiaFrontPasses(t, x);
    MinfPasses(t, done);
    PassesFills(Minf(t), false, 3, x, y);
    ThenFills(MdiaFront(t), Minf(t), false, 3, x, x, y);
    WrapPasses(MDIA, MdiaFront(t) + Minf(t), 2, x, y);
  }

  lemma MdiaStrands(t: Indexed, done: seq<Found>)
    requires Encodable(t) && |Mdia(t)| < WORD - 1 && !Legible(t)
    ensures Strands(Mdia(t), false, 2, Reading(done, NOTHING), Reading(done, NOTHING))
  {
    hide Passes, Strands, Encodable, MdiaFront, Minf, Mdia, Legible, Box;
    var x := Reading(done, NOTHING);
    MdiaParts(t);
    MdiaFrontPasses(t, x);
    MinfStrands(t, done);
    ThenStrands(MdiaFront(t), Minf(t), false, 3, x, x, x);
    WrapStrands(MDIA, MdiaFront(t) + Minf(t), 2, x, x);
  }

  lemma TrakEnters(inner: seq<Byte>, x: Memory)
    ensures Enters(Value32(TRAK), [], inner, x, Reading(TracksOf(x), NOTHING))
    ensures Envelope(Atom(Value32(TRAK))) == Some(false) && MaxVersion(Value32(TRAK)) == None
  {}

  lemma TkhdPasses(t: Indexed, id: nat, x: Memory)
    requires Encodable(t)
    ensures Passes(Tkhd(t, id), false, 2, x, x)
  {
    hide Passes, FullBox, TrackTimes, TrackShape;
    UnknownTypes();
    FlaggedPasses(TKHD, 7, TrackTimes(t, id) + TrackShape(t.info), 2, x);
  }

  /** A track that can be read is read whole. */
  lemma TrakPasses(t: Indexed, id: nat, x: Memory)
    requires Encodable(t) && |Trak(t, id)| < WORD - 1 && Legible(t)
    ensures Passes(Trak(t, id), false, 1, x, Reading(TracksOf(x), FoundOf(t)))
  {
    hide Passes, Fills, Encodable, Mdia, Tkhd, Trak, Legible, FoundOf, Box, Value32, Enters, Envelope, MaxVersion;
    var done := TracksOf(x);
    var y, z := Reading(done, NOTHING), Reading(done, FoundOf(t));
    TrakParts(t, id);
    MdiaParts(t);
    TkhdPasses(t, id, y);
    MdiaPasses(t, done);
    PassesFills(Mdia(t), false, 2, y, z);
    ThenFills(Tkhd(t, id), Mdia(t), false, 2, y, y, z);
    TrakEnters(Tkhd(t, id) + Mdia(t), x);
    NothingBehind(Tkhd(t, id) + Mdia(t));
    BoxInPasses(TRAK, [], Tkhd(t, id) + Mdia(t), 1, x, y, z);
  }

  /** In a track that cannot be read the pass ends without any table. */
  lemma TrakStrands(t: Indexed, id: nat, x: Memory)
    requires Encodable(t) && |Trak(t, id)| < WORD - 1 && !Legible(t)
    ensures Strands(Trak(t, id), false, 1, x, Reading(TracksOf(x), NOTHING))
  {
    hide Passes, Strands, Encodable, Mdia, Tkhd, Trak, Legible, Box, Value32, Enters, Envelope, MaxVersion;
    var done := TracksOf(x);
    var y := Reading(done, NOTHING);
    TrakParts(t, id);
    MdiaParts(t);
    TkhdPasses(t, id, y);
    MdiaStrands(t, done);
    ThenStrands(Tkhd(t, id), Mdia(t), false, 2, y, y, y);
    TrakEnters(Tkhd(t, id) + Mdia(t), x);
    NothingBehind(Tkhd(t, id) + Mdia(t));
    BoxInStrands(TRAK, [], Tkhd(t, id) + Mdia(t), 1, x, y, y);
  }

  // ---------------------------------------------------------------- all tracks

  const NONE := Memory([], None)

  /** The tracks with samples can all be read. */
  predicate AllLegible(tracks: seq<Indexed>)
    requires Indexable(tracks)
  {
    forall t | t in tracks && t.smpl != [] :: Legible(t)
  }

  /** What is found of the tracks; those without samples are not in the index. */
  function FoundList(tracks: seq<Indexed>): (list: seq<Found>)
    requires Indexable(tracks)
  {
    if tracks == [] then []
    else
      var n := |tracks| - 1;
      FoundList(tracks[..n]) + if tracks[n].smpl == [] then [] else [FoundOf(tracks[n])]
  }

  /** A track's number for a reader: tracks without samples do not count. */
  function Rank(tracks: seq<Indexed>, t: nat): (n: nat)
    requires t <= |tracks|
  {
    if t == 0 then 0 else Rank(tracks, t - 1) + if tracks[t - 1].smpl == [] then 0 else 1
  }

  lemma {:induction false} RankIs(tracks: seq<Indexed>, t: nat)
    requires Indexable(tracks) && t <= |tracks|
    ensures Rank(tracks, t) == |FoundList(tracks[..t])|
  {
    hide Encodable, FoundOf;
    if t > 0 {
      RankIs(tracks, t - 1);
      assert tracks[..t][..t - 1] == tracks[..t - 1];
    }
  }

  lemma {:induction false} FoundAt(tracks: seq<Indexed>, t: nat)
    requires Indexable(tracks) && t < |tracks| && tracks[t].smpl != []
    ensures Encodable(tracks[t]) && Rank(tracks, t) < |FoundList(tracks)|
    ensures FoundList(tracks)[Rank(tracks, t)] == FoundOf(tracks[t])
    decreases |tracks|
  {
    hide Encodable, FoundOf, Rank;
    var n := |tracks| - 1;
    assert tracks[t] in tracks;
    RankIs(tracks, t);
    if t < n {
      FoundAt(tracks[..n], t);
      assert tracks[..n][..t] == tracks[..t];
      RankIs(tracks[..n], t);
    }
  }

  /** Where the pass stands behind the trak boxes. */
  function Behind(tracks: seq<Indexed>): (m: Memory)
    requires Indexable(tracks)
    ensures TracksOf(m) == FoundList(tracks)
  {
    if tracks == [] then NONE
    else
      var n := |tracks| - 1;
      var before := Behind(tracks[..n]);
      if tracks[n].smpl == [] then before else Reading(TracksOf(before), FoundOf(tracks[n]))
  }

  /** The box of a track, if it has one. */
  function TrakOf(t: Indexed, id: nat): seq<Byte>
    requires t.smpl != [] ==> Encodable(t)
  {
    if t.smpl == [] then [] else Trak(t, id)
  }

  lemma TraksSnoc(tracks: seq<Indexed>)
    requires Indexable(tracks) && tracks != []
    ensures var n := |tracks| - 1;
            && Indexable(tracks[..n]) && (tracks[n].smpl != [] ==> Encodable(tracks[n]))
            && Traks(tracks) == Traks(tracks[..n]) + TrakOf(tracks[n], n + 1)
            && (tracks[n].smpl != [] ==> TrakOf(tracks[n], n + 1) != [])
  {
    hide Encodable, Trak;
    var n := |tracks| - 1;
    assert tracks[n] in tracks;
    if tracks[n].smpl != [] {
      TrakThere(tracks[n], n + 1);
    }
  }

  lemma TrakThere(t: Indexed, id: nat)
    requires Encodable(t)
    ensures Trak(t, id) != []
  {
    hide Encodable, Mdia, Tkhd, Trak;
    TrakParts(t, id);
  }

  lemma {:induction false} TraksPass(tracks: seq<Indexed>)
    requires Indexable(tracks) && |Traks(tracks)| < WORD - 1 && AllLegible(tracks)
    ensures Passes(Traks(tracks), false, 1, NONE, Behind(tracks))
  {
    hide Passes, Encodable, Legible, Trak, FoundOf, Traks, FoundList;
    if tracks == [] {
      NoTraks();
      NonePasses(false, 1, NONE);
    } else {
      var n := |tracks| - 1;
      TraksSnoc(tracks);
      TraksPass(tracks[..n]);
      var x := Behind(tracks[..n]);
      if tracks[n].smpl == [] {
        NothingBehind(Traks(tracks[..n]));
      } else {
        assert tracks[n] in tracks;
        TrakPasses(tracks[n], n + 1, x);
        Then(Traks(tracks[..n]), Trak(tracks[n], n + 1), false, 1, NONE, x, Behind(tracks));
      }
    }
  }

  lemma NoTraks()
    ensures Traks([]) == []
  {}

  /** In front of the first track that cannot be read. */
  ghost predicate FirstIllegible(tracks: seq<Indexed>, u: nat)
    requires Indexable(tracks)
  {
    && u < |tracks| && tracks[u] in tracks && tracks[u].smpl != [] && !Legible(tracks[u])
    && AllLegible(tracks[..u])
  }

  lemma LastStrands(before: seq<Indexed>, t: Indexed, id: nat)
    requires Indexable(before) && |Traks(before)| < WORD - 1 && AllLegible(before)
    requires Encodable(t) && |Trak(t, id)| < WORD - 1 && !Legible(t)
    ensures Strands(Traks(before) + Trak(t, id), false, 1, NONE, Reading(FoundList(before), NOTHING))
  {
    hide Passes, Strands, Encodable, Legible, Trak, FoundOf, Traks, FoundList, Behind, AllLegible, Indexable;
    TraksPass(before);
    TrakThere(t, id);
    var x := Behind(before);
    TrakStrands(t, id, x);
    ThenStrands(Traks(before), Trak(t, id), false, 1, NONE, x, Reading(TracksOf(x), NOTHING));
  }

  lemma {:induction false} TraksStrand(tracks: seq<Indexed>, u: nat)
    requires Indexable(tracks) && |Traks(tracks)| < WORD - 1 && FirstIllegible(tracks, u)
    ensures Strands(Traks(tracks), false, 1, NONE, Reading(FoundList(tracks[..u]), NOTHING))
    ensures Traks(tracks) != []
    decreases |tracks|
  {
    hide Passes, Strands, Encodable, Legible, Trak, FoundOf, Traks, FoundList, Behind;
    var n := |tracks| - 1;
    TraksSnoc(tracks);
    if u == n {
      LastStrands(tracks[..n], tracks[n], n + 1);
    } else {
      assert tracks[..n][u] == tracks[u] && tracks[..n][..u] == tracks[..u];
      TraksStrand(tracks[..n], u);
      StrandsBefore(Traks(tracks[..n]), TrakOf(tracks[n], n + 1), false, 1, NONE,
                    Reading(FoundList(tracks[..u]), NOTHING));
    }
  }

  lemma {:induction false} FirstOne(tracks: seq<Indexed>) returns (u: nat)
    requires Indexable(tracks) && !AllLegible(tracks)
    ensures FirstIllegible(tracks, u)
    decreases |tracks|
  {
    hide Encodable, Legible;
    var n := |tracks| - 1;
    assert tracks == tracks[..n] + [tracks[n]];
    if AllLegible(tracks[..n]) {
      u := n;
    } else {
      u := FirstOne(tracks[..n]);
      assert tracks[..n][..u] == tracks[..u];
    }
  }

  // ---------------------------------------------------------------- the index

  lemma MvhdPasses(tracks: seq<Indexed>)
    requires Indexable(tracks)
    ensures Passes(Mvhd(tracks), false, 1, NONE, NONE) && |Mvhd(tracks)| > 0
  {
    hide Passes, FullBox, U32, U16, Matrix, Duration, Millis, Encodable;
    FullPasses(MVHD, ZeroBytes(8)
      + (if tracks == [] then [] else U32(1000) + U32(Millis(Duration(tracks[0].smpl), tracks[0].info.timeScale)))
      + U32(0x1_0000) + U16(0x100) + ZeroBytes(10) + Matrix() + ZeroBytes(24) + U32(|tracks| + 1), 1, NONE);
  }

  lemma MetaEnters(inner: seq<Byte>, x: Memory)
    ensures Enters(Value32(META), [], inner, x, Memory(TracksOf(x), None))
    ensures Envelope(Atom(Value32(META))) == Some(false) && MaxVersion(Value32(META)).Some?
  {}

  lemma CommentPasses(text: seq<Byte>, x: Memory)
    requires |CommentItem(text)| < WORD - 1
    ensures Passes(CommentItem(text), false, 3, x, x)
  {
    hide Passes, Fills, Box;
    UnknownTypes();
    var data := Box(DATA, U32(1) + U32(0) + text + [0]);
    BoxPasses(CCMT, data, 4, x);
    PassesFills(Box(CCMT, data), false, 4, x, x);
    WrapPasses(ILST, Box(CCMT, data), 3, x, x);
  }

  lemma MetaPasses(text: seq<Byte>, x: Memory)
    requires |CommentItem(text)| + 48 < WORD - 1
    ensures Passes(FullBox(META, 0, MetaHandler() + CommentItem(text)), false, 2, x, Memory(TracksOf(x), None))
  {
    hide Passes, Fills, FullBox, CommentItem, Value32, Enters, Envelope, MaxVersion;
    var y := Memory(TracksOf(x), None);
    MetaHandlerPasses(y);
    CommentPasses(text, y);
    PassesFills(CommentItem(text), false, 3, y, y);
    var inner := MetaHandler() + CommentItem(text);
    ThenFills(MetaHandler(), CommentItem(text), false, 3, y, y, y);
    MetaEnters(inner, x);
    NothingBehind(inner);
    FullInPasses(META, [], inner, 2, x, y, y);
  }

  lemma MetaHandlerPasses(x: Memory)
    requires x.current.None?
    ensures Passes(MetaHandler(), false, 3, x, x)
  {
    hide Passes, FullBox;
    FullPasses(HDLR, ZeroBytes(4) + U32(0x6d64_6972) + ZeroBytes(16), 3, x);
  }

  /** The comment leaves the tracks as they are. */
  lemma UdtaFills(comment: Option<seq<Byte>>, x: Memory) returns (y: Memory)
    requires |Udta(comment)| < WORD - 1
    ensures Fills(Udta(comment), false, 1, x, y) && TracksOf(y) == TracksOf(x)
  {
    hide Passes, Fills, FullBox, Box;
    match comment
    case None =>
      NoFills(false, 1, x);
      y := x;
    case Some(text) =>
      y := Memory(TracksOf(x), None);
      var meta := FullBox(META, 0, MetaHandler() + CommentItem(text));
      MetaPasses(text, x);
      PassesFills(meta, false, 2, x, y);
      WrapPasses(UDTA, meta, 1, x, y);
      PassesFills(Udta(comment), false, 1, x, y);
  }

  lemma MoovLength(tracks: seq<Indexed>, comment: Option<seq<Byte>>)
    requires Indexable(tracks)
    ensures |Moov(tracks, comment)| == 8 + |Mvhd(tracks)| + |Traks(tracks)| + |Udta(comment)|
    ensures Moov(tracks, comment) == Box(MOOV, Mvhd(tracks) + Traks(tracks) + Udta(comment))
  {
    hide Encodable, Mvhd, Traks, Udta;
  }

  lemma ThenMaybe(a: seq<Byte>, b: seq<Byte>, od: bool, d: nat, x: Memory, y: Memory)
    requires Passes(a, od, d, x, x) && Passes(b, od, d, x, y) && (b == [] ==> x == y)
    ensures Passes(a + b, od, d, x, y)
  {
    hide Passes;
    if b == [] {
      NothingBehind(a);
    } else {
      Then(a, b, od, d, x, x, y);
    }
  }

  lemma {:induction false} NoneBehind(tracks: seq<Indexed>)
    requires Indexable(tracks) && Traks(tracks) == []
    ensures Behind(tracks) == NONE
  {
    hide Encodable, Trak;
    if tracks != [] {
      TraksSnoc(tracks);
      NoneBehind(tracks[..|tracks| - 1]);
    }
  }

  /** An index whose tracks can all be read is read whole. */
  lemma MoovPasses(tracks: seq<Indexed>, comment: Option<seq<Byte>>) returns (y: Memory)
    requires Indexable(tracks) && |Moov(tracks, comment)| < WORD - 1 && AllLegible(tracks)
    ensures Passes(Moov(tracks, comment), false, 0, NONE, y) && TracksOf(y) == FoundList(tracks)
  {
    hide Passes, Fills, Encodable, Legible, Mvhd, Traks, Udta, Moov, Box, FoundList, Behind;
    MoovLength(tracks, comment);
    MvhdPasses(tracks);
    TraksPass(tracks);
    if Traks(tracks) == [] {
      NoneBehind(tracks);
    }
    var x := Behind(tracks);
    ThenMaybe(Mvhd(tracks), Traks(tracks), false, 1, NONE, x);
    y := UdtaFills(comment, x);
    ThenOptional(Mvhd(tracks) + Traks(tracks), Udta(comment), false, 1, NONE, x, y);
    WrapPasses(MOOV, Mvhd(tracks) + Traks(tracks) + Udta(comment), 0, NONE, y);
  }

  /** With a track that cannot be read nothing is found from that on. */
  lemma MoovStrands(tracks: seq<Indexed>, comment: Option<seq<Byte>>, u: nat)
    requires Indexable(tracks) && |Moov(tracks, comment)| < WORD - 1 && u < |tracks| && FirstIllegible(tracks, u)
    ensures Strands(Moov(tracks, comment), false, 0, NONE, Reading(FoundList(tracks[..u]), NOTHING))
  {
    hide Passes, Strands, Encodable, Legible, Mvhd, Traks, Udta, Moov, Box, FoundList, FirstIllegible;
    var y := Reading(FoundList(tracks[..u]), NOTHING);
    MoovLength(tracks, comment);
    MvhdPasses(tracks);
    TraksStrand(tracks, u);
    ThenStrands(Mvhd(tracks), Traks(tracks), false, 1, NONE, NONE, y);
    StrandsBefore(Mvhd(tracks) + Traks(tracks), Udta(comment), false, 1, NONE, y);
    WrapStrands(MOOV, Mvhd(tracks) + Traks(tracks) + Udta(comment), 0, NONE, y);
  }
}
