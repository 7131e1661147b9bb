/** The demuxer of stream/minimp4.hpp on an index that its muxer wrote: exactly which tracks it
    can read, and that it then finds every table of every track. */
module Mp4Open {
  import opened Seqs
  import opened Wrappers
  import opened Bits
  import opened Mp4Bytes
  import opened Mp4Boxes
  import opened Mp4Tree
  import opened Mp4Demux
  import opened Mp4Walk
  import opened Mp4Descriptors

  // ---------------------------------------------------------------- boxes as written

  /** The parts of a box and of a full box. */
  lemma BoxParts(kind: seq<Byte>, content: seq<Byte>)
    requires |kind| == 4 && |Box(kind, content)| < WORD
    ensures var b := Box(kind, content);
            Sized(b) && |b| == 8 + |content| && KindOf(b) == Value32(kind) && b[8..] == content
  {
    hide Sized, U32, Value32;
    BoxSized(kind, content);
    assert Box(kind, content)[4..8] == kind;
  }

  lemma FullParts(kind: seq<Byte>, flags: nat, content: seq<Byte>)
    requires |kind| == 4 && |FullBox(kind, flags, content)| < WORD
    ensures var b := FullBox(kind, flags, content);
            && Sized(b) && |b| == 12 + |content| && KindOf(b) == Value32(kind) && b[12..] == content
            && Word(b, 8) == flags % WORD
  {
    hide Sized, U32, Value32;
    var b := FullBox(kind, flags, content);
    FullBoxSized(kind, flags, content);
    assert b[4..8] == kind && b[8..12] == U32(flags);
    Value32OfU32(flags);
  }

  /** A type that the demuxer knows nothing of. */
  predicate Unknown(kind: nat) {
    MaxVersion(kind) == None && Envelope(Atom(kind)) == None && !TrackPart(Atom(kind))
  }

  lemma UnknownPasses(b: seq<Byte>, d: nat, x: Memory)
    requires Sized(b) && |b| < WORD - 1 && Unknown(KindOf(b))
    ensures Passes(b, false, d, x, x)
  {
    hide Value32, Announces, Passes;
    var h := PlainHead(b);
    PlainAnnounced(b, x);
    UnknownStored(KindOf(b), b[8..], x);
    OverPasses(b, h, false, d, x);
  }

  lemma UnknownStored(kind: nat, data: seq<Byte>, x: Memory)
    requires Unknown(kind)
    ensures Need(Atom(kind), data, |data|, 0, x) == 0 && Store(Atom(kind), data, |data|, 0, x) == x
  {}

  lemma BoxPasses(kind: seq<Byte>, content: seq<Byte>, d: nat, x: Memory)
    requires |kind| == 4 && |Box(kind, content)| < WORD - 1 && Unknown(Value32(kind))
    ensures Passes(Box(kind, content), false, d, x, x)
  {
    hide Sized, Box, Value32, Passes;
    BoxParts(kind, content);
    UnknownPasses(Box(kind, content), d, x);
  }

  lemma FlaggedPasses(kind: seq<Byte>, flags: nat, content: seq<Byte>, d: nat, x: Memory)
    requires |kind| == 4 && |FullBox(kind, flags, content)| < WORD - 1 && Unknown(Value32(kind))
    ensures Passes(FullBox(kind, flags, content), false, d, x, x)
  {
    hide Sized, FullBox, Value32, Passes;
    FullParts(kind, flags, content);
    UnknownPasses(FullBox(kind, flags, content), d, x);
  }

  /** A full box that is read and not entered. */
  lemma FullPasses(kind: seq<Byte>, content: seq<Byte>, d: nat, x: Memory)
    requires |kind| == 4 && |FullBox(kind, 0, content)| < WORD - 1
    requires var k := Value32(kind);
             && MaxVersion(k).Some? && Envelope(Atom(k)) == None
             && (TrackTable(k) || TrackPart(Atom(k)) ==> x.current.Some?)
             && Need(Atom(k), content, |content|, 0, x) <= |content|
    ensures Passes(FullBox(kind, 0, content), false, d, x, Store(Atom(Value32(kind)), content, |content|, 0, x))
  {
    hide Sized, FullBox, Value32, Passes, Announces, MaxVersion, Envelope, TrackTable, TrackPart, Need, Store;
    var b := FullBox(kind, 0, content);
    FullParts(kind, 0, content);
    FullAnnounced(b, x);
    OverPasses(b, FullHeader(b), false, d, x);
  }

  /** What the head of an entered box calls for. */
  ghost predicate Enters(kind: nat, header: seq<Byte>, inner: seq<Byte>, x: Memory, y: Memory) {
    && (TrackTable(kind) || TrackPart(Atom(kind)) ==> x.current.Some?)
    && var data := header + inner;
    && Need(Atom(kind), data, |data|, 0, x) <= |data|
    && Used(Atom(kind), data, |data|, 0, x) == |header| && Store(Atom(kind), data, |data|, 0, x) == y
  }

  lemma BoxEnters(kind: seq<Byte>, header: seq<Byte>, inner: seq<Byte>, x: Memory, y: Memory)
    requires |kind| == 4 && |Box(kind, header + inner)| < WORD - 1 && MaxVersion(Value32(kind)) == None
    requires Enters(Value32(kind), header, inner, x, y)
    ensures var b := Box(kind, header + inner);
            var h := PlainHead(b);
            && h.name == Atom(Value32(kind)) && b[8..] == header + inner && (header + inner)[|header|..] == inner
            && Announces(b, false, x, h) && Readable(h, b[8..], x)
            && Front(h, b[8..], x) == |header| && Remembered(h, b[8..], x) == y
  {
    hide Sized, Box, Value32, Announces, MaxVersion, TrackTable, TrackPart, Need, Store, Used;
    BoxParts(kind, header + inner);
    PlainAnnounced(Box(kind, header + inner), x);
  }

  lemma FullEnters(kind: seq<Byte>, header: seq<Byte>, inner: seq<Byte>, x: Memory, y: Memory)
    requires |kind| == 4 && |FullBox(kind, 0, header + inner)| < WORD - 1 && MaxVersion(Value32(kind)).Some?
    requires Enters(Value32(kind), header, inner, x, y)
    ensures var b := FullBox(kind, 0, header + inner);
            var h := FullHeader(b);
            && h.name == Atom(Value32(kind)) && b[12..] == header + inner && (header + inner)[|header|..] == inner
            && Announces(b, false, x, h) && Readable(h, b[12..], x)
            && Front(h, b[12..], x) == |header| && Remembered(h, b[12..], x) == y
  {
    hide Sized, FullBox, Value32, Announces, MaxVersion, TrackTable, TrackPart, Need, Store, Used;
    FullParts(kind, 0, header + inner);
    FullAnnounced(FullBox(kind, 0, header + inner), x);
  }

  lemma BoxInPasses(kind: seq<Byte>, header: seq<Byte>, inner: seq<Byte>, d: nat, x: Memory, y: Memory, z: Memory)
    requires |kind| == 4 && |Box(kind, header + inner)| < WORD - 1 && MaxVersion(Value32(kind)) == None
    requires Enters(Value32(kind), header, inner, x, y) && d + 1 < DEPTH_LIMIT
    requires var od := Envelope(Atom(Value32(kind))); od.Some? && Fills(inner, od.value, d + 1, y, z)
    ensures Passes(Box(kind, header + inner), false, d, x, z)
  {
    hide Box, Value32, Passes, Fills, Announces, Envelope, Readable, Front, Remembered, MaxVersion, Enters;
    var b := Box(kind, header + inner);
    BoxEnters(kind, header, inner, x, y);
    InPasses(b, PlainHead(b), false, d, x, z);
  }

  lemma BoxInStrands(kind: seq<Byte>, header: seq<Byte>, inner: seq<Byte>, d: nat, x: Memory, y: Memory, z: Memory)
    requires |kind| == 4 && |Box(kind, header + inner)| < WORD - 1 && MaxVersion(Value32(kind)) == None
    requires Enters(Value32(kind), header, inner, x, y) && d + 1 < DEPTH_LIMIT && inner != []
    requires var od := Envelope(Atom(Value32(kind))); od.Some? && Strands(inner, od.value, d + 1, y, z)
    ensures Strands(Box(kind, header + inner), false, d, x, z)
  {
    hide Box, Value32, Strands, Announces, Envelope, Readable, Front, Remembered, MaxVersion, Enters;
    var b := Box(kind, header + inner);
    BoxEnters(kind, header, inner, x, y);
    InStrands(b, PlainHead(b), false, d, x, z);
  }

  lemma FullInPasses(kind: seq<Byte>, header: seq<Byte>, inner: seq<Byte>, d: nat, x: Memory, y: Memory, z: Memory)
    requires |kind| == 4 && |FullBox(kind, 0, header + inner)| < WORD - 1 && MaxVersion(Value32(kind)).Some?
    requires Enters(Value32(kind), header, inner, x, y) && d + 1 < DEPTH_LIMIT
    requires var od := Envelope(Atom(Value32(kind))); od.Some? && Fills(inner, od.value, d + 1, y, z)
    ensures Passes(FullBox(kind, 0, header + inner), false, d, x, z)
  {
    hide FullBox, Value32, Passes, Fills, Announces, Envelope, Readable, Front, Remembered, MaxVersion, Enters;
    var b := FullBox(kind, 0, header + inner);
    FullEnters(kind, header, inner, x, y);
    InPasses(b, FullHeader(b), false, d, x, z);
  }

  lemma FullInStrands(kind: seq<Byte>, header: seq<Byte>, inner: seq<Byte>, d: nat, x: Memory, y: Memory, z: Memory)
    requires |kind| == 4 && |FullBox(kind, 0, header + inner)| < WORD - 1 && MaxVersion(Value32(kind)).Some?
    requires Enters(Value32(kind), header, inner, x, y) && d + 1 < DEPTH_LIMIT && inner != []
    requires var od := Envelope(Atom(Value32(kind))); od.Some? && Strands(inner, od.value, d + 1, y, z)
    ensures Strands(FullBox(kind, 0, header + inner), false, d, x, z)
  {
    hide FullBox, Value32, Strands, Announces, Envelope, Readable, Front, Remembered, MaxVersion, Enters;
    var b := FullBox(kind, 0, header + inner);
    FullEnters(kind, header, inner, x, y);
    InStrands(b, FullHeader(b), false, d, x, z);
  }

  // ---------------------------------------------------------------- types

  /** The types that are only entered. */
  predicate Wrapper(kind: seq<Byte>) {
    kind == MOOV || kind == MDIA || kind == MINF || kind == DINF || kind == STBL || kind == UDTA || kind == ILST
  }

  lemma WrapperEnters(kind: seq<Byte>)
    requires Wrapper(kind)
    ensures |kind| == 4 && Envelope(Atom(Value32(kind))) == Some(false) && MaxVersion(Value32(kind)) == None
    ensures forall inner: seq<Byte>, x :: Enters(Value32(kind), [], inner, x, x)
  {
    forall inner: seq<Byte>, x ensures Enters(Value32(kind), [], inner, x, x) {
    }
  }

  /** A box that is only entered, around what fills it. */
  lemma WrapPasses(kind: seq<Byte>, inner: seq<Byte>, d: nat, x: Memory, y: Memory)
    requires Wrapper(kind) && |Box(kind, inner)| < WORD - 1 && d + 1 < DEPTH_LIMIT && Fills(inner, false, d + 1, x, y)
    ensures Passes(Box(kind, inner), false, d, x, y)
  {
    hide Wrapper, Box, Value32, Passes, Fills, Envelope, MaxVersion, Enters;
    WrapperEnters(kind);
    NothingBehind(inner);
    assert Enters(Value32(kind), [], inner, x, x);
    BoxInPasses(kind, [], inner, d, x, x, y);
  }

  lemma WrapStrands(kind: seq<Byte>, inner: seq<Byte>, d: nat, x: Memory, y: Memory)
    requires Wrapper(kind) && |Box(kind, inner)| < WORD - 1 && d + 1 < DEPTH_LIMIT
    requires inner != [] && Strands(inner, false, d + 1, x, y)
    ensures Strands(Box(kind, inner), false, d, x, y)
  {
    hide Wrapper, Box, Value32, Strands, Envelope, MaxVersion, Enters;
    WrapperEnters(kind);
    NothingBehind(inner);
    assert Enters(Value32(kind), [], inner, x, x);
    BoxInStrands(kind, [], inner, d, x, x, y);
  }

  lemma UnknownTypes()
    ensures Unknown(Value32(TKHD)) && Unknown(Value32(SMHD)) && Unknown(Value32(VMHD)) && Unknown(Value32(DREF))
    ensures Unknown(Value32(STSS)) && Unknown(Value32(CCMT)) && Unknown(Value32(MDAT))
  {}

  // ---------------------------------------------------------------- sample tables

  /** A track being read, behind others. */
  function Reading(done: seq<Found>, f: Found): Memory {
    Memory(done, Some(f))
  }

  /** The contents of a full box, behind size, type, version and flags. */
  function Contents(box: seq<Byte>): seq<Byte>
    requires |box| >= 12
  {
    box[12..]
  }

  lemma FullBoxContents(kind: seq<Byte>, flags: nat, content: seq<Byte>)
    requires |kind| == 4
    ensures Contents(FullBox(kind, flags, content)) == content
  {}

  /** A count in front. */
  lemma Counted(n: nat, rest: seq<Byte>)
    ensures Word(U32(n) + rest, 0) == n % WORD <= n
  {
    hide U32, Value32;
    assert (U32(n) + rest)[0..4] == U32(n);
    Value32OfU32(n);
  }

  lemma SttsPasses(smpl: seq<Sample>, done: seq<Found>, f: Found)
    requires |Stts(smpl)| < WORD - 1
    ensures Passes(Stts(smpl), false, 5, Reading(done, f), Reading(done, f.(stts := Some(Contents(Stts(smpl))))))
  {
    hide FullBox, Passes, U32, RunBytes, Runs, Word;
    var runs := Runs(smpl, 0, 1);
    Counted(|runs|, RunBytes(runs));
    FullBoxContents(STTS, 0, U32(|runs|) + RunBytes(runs));
    FullPasses(STTS, U32(|runs|) + RunBytes(runs), 5, Reading(done, f));
  }

  lemma StscPasses(done: seq<Found>, f: Found)
    ensures Passes(Stsc(), false, 5, Reading(done, f), Reading(done, f.(stsc := Some(Contents(Stsc())))))
  {
    hide FullBox, Passes, U32, Word;
    var one := U32(1);
    Counted(1, one + (one + one));
    Assoc(one + one, one, one);
    Assoc(one, one, one + one);
    FullBoxContents(STSC, 0, one + one + one + one);
    FullPasses(STSC, one + one + one + one, 5, Reading(done, f));
  }

  lemma StszPasses(smpl: seq<Sample>, done: seq<Found>, f: Found)
    requires |Stsz(smpl)| < WORD - 1
    ensures Passes(Stsz(smpl), false, 5, Reading(done, f), Reading(done, f.(stsz := Some(Contents(Stsz(smpl))))))
  {
    hide FullBox, Passes, U32, Sizes, Word;
    var content := U32(0) + U32(|smpl|) + Sizes(smpl);
    SecondCounted(U32(0), |smpl|, Sizes(smpl));
    FullBoxContents(STSZ, 0, content);
    FullPasses(STSZ, content, 5, Reading(done, f));
  }

  lemma SecondCounted(a: seq<Byte>, n: nat, rest: seq<Byte>)
    requires |a| == 4
    ensures Word(a + U32(n) + rest, 4) == n % WORD <= n
  {
    hide U32, Value32;
    assert (a + U32(n) + rest)[4..8] == U32(n);
    Value32OfU32(n);
  }

  lemma OffsetsPasses(smpl: seq<Sample>, done: seq<Found>, f: Found)
    requires |ChunkOffsets(smpl)| < WORD - 1
    ensures Passes(ChunkOffsets(smpl), false, 5, Reading(done, f),
                   Reading(done, f.(offsets := Some(Contents(ChunkOffsets(smpl))), wide := Wide(smpl))))
  {
    hide FullBox, Passes, U32, Offsets, WideOffsets, Word;
    if Wide(smpl) {
      Counted(|smpl|, WideOffsets(smpl));
      FullBoxContents(CO64, 0, U32(|smpl|) + WideOffsets(smpl));
      FullPasses(CO64, U32(|smpl|) + WideOffsets(smpl), 5, Reading(done, f));
    } else {
      Counted(|smpl|, Offsets(smpl));
      FullBoxContents(STCO, 0, U32(|smpl|) + Offsets(smpl));
      FullPasses(STCO, U32(|smpl|) + Offsets(smpl), 5, Reading(done, f));
    }
  }

  /** The last offset decides between stco and co64. */
  predicate Wide(smpl: seq<Sample>) {
    smpl != [] && smpl[|smpl| - 1].offset >= WORD
  }

  lemma StssFills(smpl: seq<Sample>, x: Memory)
    requires |Stss(smpl)| < WORD - 1
    ensures Fills(Stss(smpl), false, 5, x, x)
  {
    hide FullBox, Passes, Fills, U32, SyncNumbers, SyncCount;
    UnknownTypes();
    if Stss(smpl) == [] {
      NoFills(false, 5, x);
    } else {
      FlaggedPasses(STSS, 0, U32(SyncCount(smpl)) + SyncNumbers(smpl), 5, x);
      PassesFills(Stss(smpl), false, 5, x, x);
    }
  }

  /** What is found of a track whose tables are read. */
  function WithTables(f: Found, smpl: seq<Sample>): Found {
    f.(stts := Some(Contents(Stts(smpl))), stsc := Some(Contents(Stsc())), stsz := Some(Contents(Stsz(smpl))),
       offsets := Some(Contents(ChunkOffsets(smpl))), wide := Wide(smpl))
  }

  // ---------------------------------------------------------------- sample entries

  /** The contents of an avcC box. */
  function AvcRecord(t: Indexed): (data: seq<Byte>)
    requires |t.vsps| >= 6
    ensures |data| == 7 + |t.vsps| + |t.vpps|
  {
    [1, t.vsps[3], t.vsps[4], t.vsps[5], 255, 0xe0 + Items(t.vsps, 0) % 32] + t.vsps + U8(Items(t.vpps, 0)) + t.vpps
  }

  /** Exactly the tracks that the pass comes through: the outer descriptor's length can be read,
      or what is read as parameter sets ends inside its box. */
  predicate Legible(t: Indexed)
    requires Encodable(t)
  {
    if t.info.media != Video then t.vsps != [] ==> Bounded(EsLength(DsiBytes(t)))
    else t.info.objectType == AVC ==> AvcEnd(AvcRecord(t)).Some?
  }

  /** The decoder configuration that is read of a track. */
  function ConfigRead(t: Indexed): seq<Byte>
    requires Encodable(t)
  {
    if t.info.media != Video then if t.vsps == [] then [] else DsiRead(t)
    else if t.info.objectType == AVC && AvcEnd(AvcRecord(t)).Some?
    then [AvcRecord(t)[5] % 32] + AvcRecord(t)[6..AvcEnd(AvcRecord(t)).value]
    else []
  }

  function Configured(dsi: seq<Byte>): Found {
    NOTHING.(dsi := dsi)
  }

  /** The descriptors in an esds box, from outside. */
  lemma DescriptorsFill(t: Indexed, done: seq<Found>)
    requires Encodable(t) && t.info.media != Video && |Descriptors'(t)| < WORD && Legible(t)
    ensures Fills(Descriptors'(t), true, 8, Reading(done, NOTHING), Reading(done, Configured(ConfigRead(t))))
  {
    hide Fills, Descriptors, EsLength, Bounded, Encodable;
    var x := Reading(done, NOTHING);
    if t.vsps == [] {
      NoFills(true, 8, x);
    } else if Extra(EsLength(DsiBytes(t))) == 0 {
      WholeFills(t, 8, x);
    } else {
      CutFills(t, 8, x);
    }
  }

  function Descriptors'(t: Indexed): seq<Byte>
    requires Encodable(t) && t.info.media != Video
  {
    if t.vsps == [] then [] else Descriptors(t)
  }

  lemma EsdsEnters(inner: seq<Byte>, x: Memory)
    requires x.current.Some?
    ensures Enters(Value32(ESDS), [], inner, x, x) && Envelope(Atom(Value32(ESDS))) == Some(true)
    ensures MaxVersion(Value32(ESDS)).Some?
  {}

  lemma EsdsPasses(t: Indexed, done: seq<Found>)
    requires Encodable(t) && t.info.media != Video && |Esds(t)| < WORD - 1 && Legible(t)
    ensures Passes(Esds(t), false, 7, Reading(done, NOTHING), Reading(done, Configured(ConfigRead(t))))
  {
    hide FullBox, Value32, Passes, Fills, Envelope, MaxVersion, Enters, Legible, ConfigRead, Descriptors, Encodable;
    var x := Reading(done, NOTHING);
    DescriptorsFill(t, done);
    EsdsEnters(Descriptors'(t), x);
    NothingBehind(Descriptors'(t));
    FullInPasses(ESDS, [], Descriptors'(t), 7, x, x, Reading(done, Configured(ConfigRead(t))));
  }

  lemma EsdsStrands(t: Indexed, done: seq<Found>)
    requires Encodable(t) && t.info.media != Video && |Esds(t)| < WORD - 1 && !Legible(t)
    ensures Strands(Esds(t), false, 7, Reading(done, NOTHING), Reading(done, NOTHING))
  {
    hide FullBox, Value32, Strands, Envelope, MaxVersion, Enters, Descriptors, Bounded, EsLength;
    var x := Reading(done, NOTHING);
    DescriptorShape(t);
    AstrayStrands(t, 8, x);
    EsdsEnters(Descriptors(t), x);
    NothingBehind(Descriptors(t));
    FullInStrands(ESDS, [], Descriptors(t), 7, x, x, x);
  }

  lemma AudioEnters(i: Info, inner: seq<Byte>, x: Memory)
    requires x.current.Some?
    ensures var k := Value32(if i.media == Audio then MP4A else MP4S);
            Enters(k, AudioFields(i), inner, x, x) && Envelope(Atom(k)) == Some(false) && MaxVersion(k) == None
  {
    hide AudioFields;
  }

  lemma AudioPasses(t: Indexed, done: seq<Found>)
    requires Encodable(t) && t.info.media != Video && |AudioEntry(t)| < WORD - 1 && Legible(t)
    ensures Passes(AudioEntry(t), false, 6, Reading(done, NOTHING), Reading(done, Configured(ConfigRead(t))))
  {
    hide Box, Value32, Passes, Fills, Envelope, MaxVersion, Enters, Legible, ConfigRead, Esds, Encodable, AudioFields;
    var x, y := Reading(done, NOTHING), Reading(done, Configured(ConfigRead(t)));
    EsdsPasses(t, done);
    EsdsThere(t);
    PassesFills(Esds(t), false, 7, x, y);
    AudioEnters(t.info, Esds(t), x);
    BoxInPasses(if t.info.media == Audio then MP4A else MP4S, AudioFields(t.info), Esds(t), 6, x, x, y);
  }

  lemma EsdsThere(t: Indexed)
    requires Encodable(t) && t.info.media != Video
    ensures Esds(t) != []
  {}

  lemma AudioStrands(t: Indexed, done: seq<Found>)
    requires Encodable(t) && t.info.media != Video && |AudioEntry(t)| < WORD - 1 && !Legible(t)
    ensures Strands(AudioEntry(t), false, 6, Reading(done, NOTHING), Reading(done, NOTHING))
  {
    hide Box, Value32, Strands, Envelope, MaxVersion, Enters, Legible, Esds, Encodable, AudioFields;
    var x := Reading(done, NOTHING);
    EsdsStrands(t, done);
    EsdsThere(t);
    AudioEnters(t.info, Esds(t), x);
    BoxInStrands(if t.info.media == Audio then MP4A else MP4S, AudioFields(t.info), Esds(t), 6, x, x, x);
  }

  lemma AvcNeed(data: seq<Byte>, x: Memory)
    requires x.current.Some?
    ensures var k := Value32(AVCC);
            && MaxVersion(k) == None && Envelope(Atom(k)) == None
            && Need(Atom(k), data, |data|, 0, x) == (match AvcEnd(data) case None => |data| + 1 case Some(e) => e)
            && (AvcEnd(data).Some? ==>
                  Store(Atom(k), data, |data|, 0, x)
                    == WithDsi(x, [data[5] % 32] + data[6..AvcEnd(data).value]))
  {
    hide AvcEnd;
  }

  lemma AvcPasses(t: Indexed, done: seq<Found>)
    requires |t.vsps| >= 6 && |AvcConfig(t)| < WORD - 1 && AvcEnd(AvcRecord(t)).Some?
    ensures var data := AvcRecord(t);
            Passes(AvcConfig(t), false, 7, Reading(done, NOTHING),
                   Reading(done, Configured([data[5] % 32] + data[6..AvcEnd(data).value])))
  {
    hide Box, Value32, Passes, Announces, Envelope, MaxVersion, AvcRecord, AvcEnd, Need, Store;
    AvcIs(t);
    BoxParts(AVCC, AvcRecord(t));
    var b, x := AvcConfig(t), Reading(done, NOTHING);
    AvcNeed(AvcRecord(t), x);
    PlainAnnounced(b, x);
    OverPasses(b, PlainHead(b), false, 7, x);
  }

  lemma AvcIs(t: Indexed)
    requires |t.vsps| >= 6
    ensures AvcConfig(t) == Box(AVCC, AvcRecord(t))
  {}

  lemma AvcStrands(t: Indexed, done: seq<Found>)
    requires |t.vsps| >= 6 && |AvcConfig(t)| < WORD - 1 && AvcEnd(AvcRecord(t)).None?
    ensures Strands(AvcConfig(t), false, 7, Reading(done, NOTHING), Reading(done, NOTHING))
  {
    hide Box, Value32, Strands, Announces, Envelope, MaxVersion, AvcRecord, AvcEnd, Need, Store;
    AvcIs(t);
    BoxParts(AVCC, AvcRecord(t));
    var b, x := AvcConfig(t), Reading(done, NOTHING);
    AvcNeed(AvcRecord(t), x);
    PlainAnnounced(b, x);
    ShortStrands(b, PlainHead(b), false, 7, x);
  }

  lemma VideoEnters(i: Info, inner: seq<Byte>, x: Memory)
    requires x.current.Some?
    ensures var k := Value32(AVC1);
            && Enters(k, VisualSize(i) + VisualRest(), inner, x, x) && Envelope(Atom(k)) == Some(false)
            && MaxVersion(k) == None
  {
    hide VisualSize, VisualRest;
  }

  lemma VideoPasses(t: Indexed, done: seq<Found>)
    requires |t.vsps| >= 6 && |VideoEntry(t)| < WORD - 1 && AvcEnd(AvcRecord(t)).Some?
    ensures var data := AvcRecord(t);
            Passes(VideoEntry(t), false, 6, Reading(done, NOTHING),
                   Reading(done, Configured([data[5] % 32] + data[6..AvcEnd(data).value])))
  {
    hide Box, Value32, Passes, Fills, Envelope, MaxVersion, Enters, AvcRecord, AvcEnd, AvcConfig;
    hide VisualSize, VisualRest;
    var x, data := Reading(done, NOTHING), AvcRecord(t);
    var y := Reading(done, Configured([data[5] % 32] + data[6..AvcEnd(data).value]));
    AvcPasses(t, done);
    PassesFills(AvcConfig(t), false, 7, x, y);
    VideoEnters(t.info, AvcConfig(t), x);
    BoxInPasses(AVC1, VisualSize(t.info) + VisualRest(), AvcConfig(t), 6, x, x, y);
  }

  lemma VideoStrands(t: Indexed, done: seq<Found>)
    requires |t.vsps| >= 6 && |VideoEntry(t)| < WORD - 1 && AvcEnd(AvcRecord(t)).None?
    ensures Strands(VideoEntry(t), false, 6, Reading(done, NOTHING), Reading(done, NOTHING))
  {
    hide Box, Value32, Strands, Envelope, MaxVersion, Enters, AvcRecord, AvcEnd, AvcConfig, VisualSize, VisualRest;
    var x := Reading(done, NOTHING);
    AvcStrands(t, done);
    VideoEnters(t.info, AvcConfig(t), x);
    BoxInStrands(AVC1, VisualSize(t.info) + VisualRest(), AvcConfig(t), 6, x, x, x);
  }

  // ---------------------------------------------------------------- stsd

  /** The sample entry, if the kind of track has one. */
  function Entry(t: Indexed): seq<Byte>
    requires Encodable(t)
  {
    if t.info.media != Video then AudioEntry(t) else if t.info.objectType == AVC then VideoEntry(t) else []
  }

  lemma StsdEnters(inner: seq<Byte>, x: Memory)
    requires x.current.Some?
    ensures Enters(Value32(STSD), U32(1), inner, x, x) && Envelope(Atom(Value32(STSD))) == Some(false)
    ensures MaxVersion(Value32(STSD)).Some?
  {
    hide U32;
  }

  lemma EntryThere(t: Indexed)
    requires Encodable(t) && (t.info.media == Video ==> t.info.objectType == AVC)
    ensures Entry(t) != []
  {
    hide AudioFields, Esds, VisualSize, VisualRest, AvcConfig;
  }

  lemma EntryFills(t: Indexed, done: seq<Found>)
    requires Encodable(t) && |Entry(t)| < WORD - 1 && Legible(t)
    ensures Fills(Entry(t), false, 6, Reading(done, NOTHING), Reading(done, Configured(ConfigRead(t))))
  {
    hide Passes, Fills, Bounded, EsLength, AudioEntry, VideoEntry, AvcEnd, AvcRecord, DsiRead;
    var x, y := Reading(done, NOTHING), Reading(done, Configured(ConfigRead(t)));
    if t.info.media != Video {
      AudioPasses(t, done);
      EntryThere(t);
      PassesFills(Entry(t), false, 6, x, y);
    } else if t.info.objectType == AVC {
      VideoPasses(t, done);
      EntryThere(t);
      PassesFills(Entry(t), false, 6, x, y);
    } else {
      NoFills(false, 6, x);
    }
  }

  lemma StsdPasses(t: Indexed, done: seq<Found>)
    requires Encodable(t) && |Stsd(t)| < WORD - 1 && Legible(t)
    ensures Passes(Stsd(t), false, 5, Reading(done, NOTHING), Reading(done, Configured(ConfigRead(t))))
  {
    hide FullBox, U32, Value32, Passes, Fills, Envelope, MaxVersion, Enters, Legible, ConfigRead, Encodable;
    hide AudioEntry, VideoEntry;
    var x, y := Reading(done, NOTHING), Reading(done, Configured(ConfigRead(t)));
    EntryFills(t, done);
    StsdEnters(Entry(t), x);
    FullInPasses(STSD, U32(1), Entry(t), 5, x, x, y);
  }

  lemma StsdStrands(t: Indexed, done: seq<Found>)
    requires Encodable(t) && |Stsd(t)| < WORD - 1 && !Legible(t)
    ensures Strands(Stsd(t), false, 5, Reading(done, NOTHING), Reading(done, NOTHING))
  {
    hide FullBox, U32, Value32, Strands, Envelope, MaxVersion, Enters, AudioEntry, VideoEntry, Bounded, EsLength;
    hide AvcEnd, AvcRecord;
    var x := Reading(done, NOTHING);
    if t.info.media != Video {
      AudioStrands(t, done);
    } else {
      VideoStrands(t, done);
    }
    EntryThere(t);
    StsdEnters(Entry(t), x);
    FullInStrands(STSD, U32(1), Entry(t), 5, x, x, x);
  }

  // ---------------------------------------------------------------- which configurations are read

  /** A decoder configuration written into descriptors is read back if and only if it has at most
      107 bytes; otherwise nothing is read. */
  lemma ConfigReadIff(t: Indexed)
    requires Encodable(t) && t.info.media != Video && t.vsps != []
    ensures ConfigRead(t) == t.vsps[2..] <==> DsiBytes(t) <= 107
    ensures DsiBytes(t) > 107 ==> ConfigRead(t) == []
  {
    hide OdLength, OdRest;
    var n := DsiBytes(t);
    OdSplit(n);
    OdSplit(n + 15);
    OdSplit(n + 20);
    OdParts(EsLength(n));
    if n > 107 {
      OdParts(n);
      OdParts(ConfigLength(n));
    }
  }

  /** Parameter sets, each behind its length of two bytes. */
  function ListOf(nals: seq<seq<Byte>>): seq<Byte> {
    if nals == [] then [] else U16(|nals[0]|) + nals[0] + ListOf(nals[1..])
  }

  predicate Nals(nals: seq<seq<Byte>>) {
    forall x | x in nals :: 0 < |x| < 0x1_0000
  }

  lemma ListParts(data: seq<Byte>, p: nat, nals: seq<seq<Byte>>, rest: seq<Byte>)
    requires Nals(nals) && nals != [] && p <= |data| && data[p..] == ListOf(nals) + rest
    ensures var next := p + 2 + |nals[0]|;
            && p + 2 < next <= |data| && next == p + 2 + data[p] as nat * 256 + data[p + 1]
            && data[p + 2..next] == nals[0] && data[next..] == ListOf(nals[1..]) + rest
            && |ListOf(nals)| == 2 + |nals[0]| + |ListOf(nals[1..])|
  {
    hide U16, ListOf;
    var x, n, more := nals[0], U16(|nals[0]|), ListOf(nals[1..]);
    assert x in nals;
    ListFirst(nals);
    Sixteen(|x|);
    assert data[p..] == n + x + more + rest;
    assert data[p] == data[p..][0] == n[0] && data[p + 1] == data[p..][1] == n[1];
    assert data[p..][2 + |x|..] == data[p + 2 + |x|..];
    assert data[p..][2..2 + |x|] == data[p + 2..p + 2 + |x|];
    Assoc(n + x, more, rest);
    Halves(n + x, more + rest);
  }

  lemma ListFirst(nals: seq<seq<Byte>>)
    requires nals != []
    ensures ListOf(nals) == U16(|nals[0]|) + nals[0] + ListOf(nals[1..])
  {}

  lemma Sixteen(n: nat)
    requires n < 0x1_0000
    ensures U16(n)[0] as nat * 256 + U16(n)[1] == n
  {}

  lemma ItemsNext(v: seq<Byte>, i: nat)
    requires i + 2 < |v|
    ensures var next := i + 2 + v[i] as nat * 256 + v[i + 1];
            next <= |v| ==> Items(v, i) == 1 + Items(v, next)
  {}

  lemma {:induction false} ItemsOfList(v: seq<Byte>, i: nat, nals: seq<seq<Byte>>)
    requires Nals(nals) && i <= |v| && v[i..] == ListOf(nals)
    ensures Items(v, i) == |nals|
    decreases |nals|
  {
    hide ListOf, Items;
    NothingBehind(ListOf(nals));
    if nals == [] {
      NoList();
      NoItems(v, i);
    } else {
      ListParts(v, i, nals, []);
      ItemsNext(v, i);
      NothingBehind(ListOf(nals[1..]));
      ItemsOfList(v, i + 2 + |nals[0]|, nals[1..]);
    }
  }

  lemma NoItems(v: seq<Byte>, i: nat)
    requires i == |v|
    ensures Items(v, i) == 0
  {}

  lemma NoList()
    ensures ListOf([]) == []
  {}

  lemma {:induction false} ListEndOf(data: seq<Byte>, p: nat, nals: seq<seq<Byte>>, rest: seq<Byte>)
    requires Nals(nals) && p <= |data| && data[p..] == ListOf(nals) + rest
    ensures ListEnd(data, p, |nals|) == Some(p + |ListOf(nals)|)
    decreases |nals|
  {
    hide ListOf;
    if nals == [] {
      NoList();
    } else {
      ListParts(data, p, nals, rest);
      ListEndOf(data, p + 2 + |nals[0]|, nals[1..], rest);
    }
  }

  /** Up to 31 SPS and 255 PPS, put into lists, are read back, with their numbers in front. */
  lemma ListsRead(t: Indexed, sps: seq<seq<Byte>>, pps: seq<seq<Byte>>)
    requires Encodable(t) && t.info.media == Video && t.info.objectType == AVC
    requires Nals(sps) && Nals(pps) && |sps| <= 31 && |pps| <= 255 && t.vsps == ListOf(sps) && t.vpps == ListOf(pps)
    ensures Legible(t) && ConfigRead(t) == [|sps|] + t.vsps + ([|pps|] + t.vpps)
  {
    hide ListOf, Items, Nals, ListEnd;
    var data := AvcRecord(t);
    assert t.vsps[0..] == t.vsps && t.vpps[0..] == t.vpps;
    ItemsOfList(t.vsps, 0, sps);
    ItemsOfList(t.vpps, 0, pps);
    RecordParts(t, |sps|, |pps|);
    var e := 6 + |t.vsps|;
    ListEndOf(data, 6, sps, [|pps|] + t.vpps);
    NothingBehind(t.vpps);
    ListEndOf(data, e + 1, pps, []);
    assert AvcEnd(data) == Some(|data|);
    assert data[6..|data|] == data[6..];
    Assoc([|sps|], t.vsps, [|pps|] + t.vpps);
  }

  lemma RecordParts(t: Indexed, m: nat, n: nat)
    requires |t.vsps| >= 6 && Items(t.vsps, 0) == m <= 31 && Items(t.vpps, 0) == n <= 255
    ensures var data := AvcRecord(t);
            && data[5] % 32 == m && data[6..] == t.vsps + ([n] + t.vpps)
            && data[6 + |t.vsps|] == n && data[7 + |t.vsps|..] == t.vpps
  {
    hide Items;
    Assoc(t.vsps, U8(n), t.vpps);
    assert AvcRecord(t)[6..] == t.vsps + (U8(n) + t.vpps);
  }
}
