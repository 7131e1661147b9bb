/** The index of an MP4 file: the boxes below `moov` (ISO/IEC 14496-12), as stretches of bytes. */
module Mp4Boxes {
  import opened Wrappers
  import opened Bits
  import opened Mp4Bytes

  datatype Sample = Sample(size: nat, offset: nat, duration: nat, sync: bool)

  datatype Media = Audio | Video | Private

  datatype Info = Info(media: Media, objectType: nat, language: seq<Byte>, timeScale: nat,
                       defaultDuration: nat, channels: nat, width: nat, height: nat)

  /** A track as the index writer sees it. vsps holds the SPS, or the DSI of an audio track,
      each behind a length of two bytes. */
  datatype Indexed = Indexed(info: Info, smpl: seq<Sample>, vsps: seq<Byte>, vpps: seq<Byte>)

  const AVC := 0x21
  const HEVC := 0x23

  /** What the index writer needs of a track that it writes; HEVC entries are not modelled. */
  predicate Encodable(t: Indexed) {
    && t.info.timeScale > 0 && |t.info.language| >= 3 && t.info.objectType != HEVC
    && (t.info.media == Video && t.info.objectType == AVC ==> |t.vsps| >= 6)
    && (t.info.media != Video && t.vsps != [] ==> |t.vsps| >= 2)
  }

  /** What it needs of all tracks: one without samples is skipped, but the first sets the time
      scale of the whole. */
  predicate Indexable(tracks: seq<Indexed>) {
    && (tracks != [] ==> tracks[0].info.timeScale > 0)
    && forall t | t in tracks && t.smpl != [] :: Encodable(t)
  }

  // ---------------------------------------------------------------- boxes

  /** A box: its size, its type, for a full box also version and flags, and its content
      (section 4.2 of ISO/IEC 14496-12). */
  function Box(kind: seq<Byte>, content: seq<Byte>): (b: seq<Byte>)
    ensures |b| == 4 + |kind| + |content|
  {
    U32(4 + |kind| + |content|) + kind + content
  }

  function FullBox(kind: seq<Byte>, flags: nat, content: seq<Byte>): (b: seq<Byte>)
    ensures |b| == 8 + |kind| + |content|
  {
    Box(kind + U32(flags), content)
  }

  const MOOV: seq<Byte> := [0x6d, 0x6f, 0x6f, 0x76]
  const MVHD: seq<Byte> := [0x6d, 0x76, 0x68, 0x64]
  const TRAK: seq<Byte> := [0x74, 0x72, 0x61, 0x6b]
  const TKHD: seq<Byte> := [0x74, 0x6b, 0x68, 0x64]
  const MDIA: seq<Byte> := [0x6d, 0x64, 0x69, 0x61]
  const MDHD: seq<Byte> := [0x6d, 0x64, 0x68, 0x64]
  const HDLR: seq<Byte> := [0x68, 0x64, 0x6c, 0x72]
  const MINF: seq<Byte> := [0x6d, 0x69, 0x6e, 0x66]
  const SMHD: seq<Byte> := [0x73, 0x6d, 0x68, 0x64]
  const VMHD: seq<Byte> := [0x76, 0x6d, 0x68, 0x64]
  const DINF: seq<Byte> := [0x64, 0x69, 0x6e, 0x66]
  const DREF: seq<Byte> := [0x64, 0x72, 0x65, 0x66]
  const URL: seq<Byte> := [0x75, 0x72, 0x6c, 0x20]
  const STBL: seq<Byte> := [0x73, 0x74, 0x62, 0x6c]
  const STSD: seq<Byte> := [0x73, 0x74, 0x73, 0x64]
  const MP4A: seq<Byte> := [0x6d, 0x70, 0x34, 0x61]
  const MP4S: seq<Byte> := [0x6d, 0x70, 0x34, 0x73]
  const ESDS: seq<Byte> := [0x65, 0x73, 0x64, 0x73]
  const AVC1: seq<Byte> := [0x61, 0x76, 0x63, 0x31]
  const AVCC: seq<Byte> := [0x61, 0x76, 0x63, 0x43]
  const STTS: seq<Byte> := [0x73, 0x74, 0x74, 0x73]
  const STSC: seq<Byte> := [0x73, 0x74, 0x73, 0x63]
  const STSZ: seq<Byte> := [0x73, 0x74, 0x73, 0x7a]
  const STCO: seq<Byte> := [0x73, 0x74, 0x63, 0x6f]
  const CO64: seq<Byte> := [0x63, 0x6f, 0x36, 0x34]
  const STSS: seq<Byte> := [0x73, 0x74, 0x73, 0x73]
  const UDTA: seq<Byte> := [0x75, 0x64, 0x74, 0x61]
  const META: seq<Byte> := [0x6d, 0x65, 0x74, 0x61]
  const ILST: seq<Byte> := [0x69, 0x6c, 0x73, 0x74]
  const CCMT: seq<Byte> := [0xa9, 0x63, 0x6d, 0x74]
  const DATA: seq<Byte> := [0x64, 0x61, 0x74, 0x61]

  function Matrix(): (m: seq<Byte>)
    ensures |m| == 36
  {
    U32(0x1_0000) + ZeroBytes(12) + U32(0x1_0000) + ZeroBytes(12) + U32(0x4000_0000)
  }

  // ---------------------------------------------------------------- headers

  /** get_duration: the sum of the sample durations, in 32 bits. */
  function Duration(smpl: seq<Sample>): nat {
    Sum(smpl) % WORD
  }

  function Sum(smpl: seq<Sample>): nat {
    if smpl == [] then 0 else Sum(smpl[..|smpl| - 1]) + smpl[|smpl| - 1].duration
  }

  /** A duration in milliseconds, in 32 bits. */
  function Millis(duration: nat, timeScale: nat): nat
    requires timeScale > 0
  {
    duration * 1000 / timeScale % WORD
  }

  /** With no track at all the writer leaves the time scale and the duration out. */
  function Mvhd(tracks: seq<Indexed>): (b: seq<Byte>)
    requires Indexable(tracks)
    ensures |b| <= 108
  {
    FullBox(MVHD, 0, ZeroBytes(8)
      + (if tracks == [] then [] else U32(1000) + U32(Millis(Duration(tracks[0].smpl), tracks[0].info.timeScale)))
      + U32(0x1_0000) + U16(0x100) + ZeroBytes(10) + Matrix() + ZeroBytes(24) + U32(|tracks| + 1))
  }

  function Tkhd(t: Indexed, id: nat): (b: seq<Byte>)
    requires Encodable(t)
    ensures |b| == 92
  {
    FullBox(TKHD, 7, TrackTimes(t, id) + TrackShape(t.info))
  }

  function TrackTimes(t: Indexed, id: nat): (b: seq<Byte>)
    requires Encodable(t)
    ensures |b| == 20
  {
    ZeroBytes(8) + U32(id) + ZeroBytes(4) + U32(Millis(Duration(t.smpl), t.info.timeScale))
  }

  function TrackShape(i: Info): (b: seq<Byte>)
    ensures |b| == 60
  {
    ZeroBytes(12) + U16(0x100) + U16(0) + Matrix()
      + if i.media == Video then U32(i.width * 0x1_0000) + U32(i.height * 0x1_0000) else ZeroBytes(8)
  }

  /** Three letters of five bits each. */
  function Language(l: seq<Byte>): nat
    requires |l| >= 3
  {
    1024 * (l[0] as int % 32) + 32 * (l[1] as int % 32) + l[2] as int % 32
  }

  function Mdhd(t: Indexed): (b: seq<Byte>)
    requires Encodable(t)
    ensures |b| == 32
  {
    FullBox(MDHD, 0, ZeroBytes(8) + U32(t.info.timeScale) + U32(Duration(t.smpl))
      + U16(Language(t.info.language)) + U16(0))
  }

  function HandlerType(m: Media): nat {
    match m
    case Audio => 0x736F_756E
    case Video => 0x7669_6465
    case Private => 0x6765_736D
  }

  /** "SoundHandler" and "VideoHandler", with the closing zero; four zeros without a name. */
  function HandlerName(m: Media): (s: seq<Byte>)
    ensures |s| <= 13
  {
    match m
    case Audio => [0x53, 0x6f, 0x75, 0x6e, 0x64, 0x48, 0x61, 0x6e, 0x64, 0x6c, 0x65, 0x72, 0]
    case Video => [0x56, 0x69, 0x64, 0x65, 0x6f, 0x48, 0x61, 0x6e, 0x64, 0x6c, 0x65, 0x72, 0]
    case Private => [0, 0, 0, 0]
  }

  function Hdlr(m: Media): (b: seq<Byte>)
    ensures |b| <= 45
  {
    FullBox(HDLR, 0, ZeroBytes(4) + U32(HandlerType(m)) + ZeroBytes(12) + HandlerName(m))
  }

  function MediaHeader(m: Media): (b: seq<Byte>)
    ensures |b| <= 20
  {
    match m
    case Audio => FullBox(SMHD, 0, ZeroBytes(4))
    case Video => FullBox(VMHD, 1, ZeroBytes(8))
    case Private => []
  }

  function Dinf(): (b: seq<Byte>)
    ensures |b| == 36
  {
    Box(DINF, FullBox(DREF, 0, U32(1) + FullBox(URL, 1, [])))
  }

  // ---------------------------------------------------------------- sample entries

  /** WRITE_OD_LEN: the length field the writer produces. */
  function OdLength(size: nat): (s: seq<Byte>)
    ensures |s| >= 1
  {
    if size > 0x7F then [0xff] + OdLength(size - 0x7F) else [size]
  }

  /** What WRITE_OD_LEN leaves of the size variable that it counts down. */
  function OdRest(size: nat): (r: nat)
    ensures r <= size && r <= 0x7F
  {
    if size > 0x7F then OdRest(size - 0x7F) else size
  }

  /** One length byte in front of the last stands for 127. */
  lemma {:induction false} OdParts(size: nat)
    ensures 0x7F * (|OdLength(size)| - 1) + OdRest(size) == size
  {
    if size > 0x7F {
      OdParts(size - 0x7F);
    }
  }

  function Esds(t: Indexed): (b: seq<Byte>)
    requires Encodable(t) && t.info.media != Video
    ensures |b| <= 36 + |t.vsps|
  {
    FullBox(ESDS, 0, if t.vsps == [] then [] else Descriptors(t))
  }

  /** The three nested descriptors of section 7.2.6 of ISO/IEC 14496-1, with this writer's
      length fields. */
  function Descriptors(t: Indexed): (b: seq<Byte>)
    requires Encodable(t) && t.info.media != Video && t.vsps != []
    ensures |b| <= 24 + |t.vsps|
  {
    var dsi := |t.vsps| - 2;
    var dcd := dsi + |OdLength(dsi)| + 14;
    var esd := dcd + |OdLength(dcd)| + 4;
    DescriptorBytes(dsi);
    EsDescriptor(esd) + DecoderConfig(t, dcd) + SpecificInfo(t.vsps[2..])
  }

  /** However long the DSI: what its length field costs is less than what it leaves out. */
  lemma DescriptorBytes(dsi: nat)
    ensures var dcd := dsi + |OdLength(dsi)| + 14;
            var esd := dcd + |OdLength(dcd)| + 4;
            19 + |OdLength(esd)| + |OdLength(dcd)| + |OdLength(dsi)| + OdRest(dsi) <= 26 + dsi
  {
    hide OdLength, OdRest;
    var dcd := dsi + |OdLength(dsi)| + 14;
    OdParts(dsi);
    OdParts(dcd);
    OdParts(dcd + |OdLength(dcd)| + 4);
  }

  function EsDescriptor(size: nat): (b: seq<Byte>)
    ensures |b| == 4 + |OdLength(size)|
  {
    [3] + OdLength(size) + ZeroBytes(3)
  }

  function DecoderConfig(t: Indexed, size: nat): (b: seq<Byte>)
    ensures |b| == 14 + |OdLength(size)|
  {
    [4] + OdLength(size) + (if t.info.media == Audio then [0x40, 20] else [208, 128])
      + U24(t.info.channels * 6144 / 8) + ZeroBytes(8)
  }

  /** The length field is written whole, but what it leaves of the count decides how many
      bytes follow. */
  function SpecificInfo(dsi: seq<Byte>): (b: seq<Byte>)
    ensures |b| == 1 + |OdLength(|dsi|)| + OdRest(|dsi|)
  {
    [5] + OdLength(|dsi|) + dsi[..OdRest(|dsi|)]
  }

  /** A decoder configuration is written whole exactly if it has at most 127 bytes. */
  lemma DsiWhole(dsi: seq<Byte>)
    ensures dsi[..OdRest(|dsi|)] == dsi <==> |dsi| <= 0x7F
  {
    if |dsi| <= 0x7F {
      assert dsi[..|dsi|] == dsi;
    }
  }

  function AudioEntry(t: Indexed): (b: seq<Byte>)
    requires Encodable(t) && t.info.media != Video
    ensures |b| <= 72 + |t.vsps|
  {
    Box(if t.info.media == Audio then MP4A else MP4S,
        AudioFields(t.info) + Esds(t))
  }

  function AudioFields(i: Info): (b: seq<Byte>)
    ensures |b| == if i.media == Audio then 28 else 8
  {
    ZeroBytes(6) + U16(1)
      + if i.media == Audio
        then ZeroBytes(8) + U16(i.channels) + U16(16) + ZeroBytes(4) + U32(i.timeScale * 0x1_0000) else []
  }

  /** items_count: the entries of a list in which each is behind its length of two bytes. */
  function Items(v: seq<Byte>, i: nat): nat
    requires i <= |v|
    decreases |v| - i
  {
    if i + 2 < |v| then
      var next := i + 2 + v[i] as nat * 256 + v[i + 1] as nat;
      1 + if next <= |v| then Items(v, next) else 0
    else 0
  }

  function AvcConfig(t: Indexed): (b: seq<Byte>)
    requires |t.vsps| >= 6
    ensures |b| == 15 + |t.vsps| + |t.vpps|
  {
    Box(AVCC, [1, t.vsps[3], t.vsps[4], t.vsps[5], 255, 0xe0 + Items(t.vsps, 0) % 32] + t.vsps
      + U8(Items(t.vpps, 0)) + t.vpps)
  }

  function VideoEntry(t: Indexed): (b: seq<Byte>)
    requires |t.vsps| >= 6
    ensures |b| == 101 + |t.vsps| + |t.vpps|
  {
    Box(AVC1, VisualSize(t.info) + VisualRest() + AvcConfig(t))
  }

  function VisualSize(i: Info): (b: seq<Byte>)
    ensures |b| == 28
  {
    ZeroBytes(6) + U16(1) + ZeroBytes(16) + U16(i.width) + U16(i.height)
  }

  function VisualRest(): (b: seq<Byte>)
    ensures |b| == 50
  {
    U32(0x48_0000) + U32(0x48_0000) + ZeroBytes(4) + U16(1) + ZeroBytes(32) + U16(24) + U16(-1)
  }

  function Stsd(t: Indexed): (b: seq<Byte>)
    requires Encodable(t)
    ensures |b| <= 117 + |t.vsps| + |t.vpps|
    ensures t.info.media != Video ==> |b| <= 88 + |t.vsps|
  {
    FullBox(STSD, 0, U32(1)
      + if t.info.media != Video then AudioEntry(t) else if t.info.objectType == AVC then VideoEntry(t) else [])
  }

  // ---------------------------------------------------------------- sample tables

  /** Durations as runs of equal values. */
  datatype Run = Run(count: nat, duration: nat)

  /** The runs of smpl from sample i on, with cnt - 1 equal ones already in front of it. */
  function Runs(smpl: seq<Sample>, i: nat, cnt: nat): (r: seq<Run>)
    requires i <= |smpl|
    ensures |r| <= |smpl| - i
    decreases |smpl| - i
  {
    if i == |smpl| then []
    else if i == |smpl| - 1 || smpl[i].duration != smpl[i + 1].duration
    then [Run(cnt, smpl[i].duration)] + Runs(smpl, i + 1, 1)
    else Runs(smpl, i + 1, cnt + 1)
  }

  function RunBytes(runs: seq<Run>): (b: seq<Byte>)
    ensures |b| == 8 * |runs|
  {
    if runs == [] then []
    else RunBytes(runs[..|runs| - 1]) + (U32(runs[|runs| - 1].count) + U32(runs[|runs| - 1].duration))
  }

  function Stts(smpl: seq<Sample>): (b: seq<Byte>)
    ensures |b| <= 16 + 8 * |smpl|
  {
    var runs := Runs(smpl, 0, 1);
    FullBox(STTS, 0, U32(|runs|) + RunBytes(runs))
  }

  function Stsc(): (b: seq<Byte>)
    ensures |b| == 28
  {
    FullBox(STSC, 0, U32(1) + U32(1) + U32(1) + U32(1))
  }

  function Sizes(smpl: seq<Sample>): (b: seq<Byte>)
    ensures |b| == 4 * |smpl|
  {
    if smpl == [] then [] else Sizes(smpl[..|smpl| - 1]) + U32(smpl[|smpl| - 1].size)
  }

  function Stsz(smpl: seq<Sample>): (b: seq<Byte>)
    ensures |b| == 20 + 4 * |smpl|
  {
    FullBox(STSZ, 0, U32(0) + U32(|smpl|) + Sizes(smpl))
  }

  function Offsets(smpl: seq<Sample>): (b: seq<Byte>)
    ensures |b| == 4 * |smpl|
  {
    if smpl == [] then [] else Offsets(smpl[..|smpl| - 1]) + U32(smpl[|smpl| - 1].offset)
  }

  function WideOffsets(smpl: seq<Sample>): (b: seq<Byte>)
    ensures |b| == 8 * |smpl|
  {
    if smpl == [] then []
    else WideOffsets(smpl[..|smpl| - 1]) + (U32(smpl[|smpl| - 1].offset / WORD) + U32(smpl[|smpl| - 1].offset))
  }

  /** The last sample alone decides on the width of the offsets. */
  function ChunkOffsets(smpl: seq<Sample>): (b: seq<Byte>)
    ensures |b| <= 16 + 8 * |smpl|
  {
    if smpl != [] && smpl[|smpl| - 1].offset >= WORD
    then FullBox(CO64, 0, U32(|smpl|) + WideOffsets(smpl))
    else FullBox(STCO, 0, U32(|smpl|) + Offsets(smpl))
  }

  function SyncCount(smpl: seq<Sample>): (n: nat)
    ensures n <= |smpl|
  {
    if smpl == [] then 0 else SyncCount(smpl[..|smpl| - 1]) + if smpl[|smpl| - 1].sync then 1 else 0
  }

  /** The numbers, from 1, of the random access samples. */
  function SyncNumbers(smpl: seq<Sample>): (b: seq<Byte>)
    ensures |b| == 4 * SyncCount(smpl)
  {
    if smpl == [] then []
    else SyncNumbers(smpl[..|smpl| - 1]) + if smpl[|smpl| - 1].sync then U32(|smpl|) else []
  }

  function Stss(smpl: seq<Sample>): (b: seq<Byte>)
    ensures |b| <= 16 + 4 * |smpl|
  {
    if SyncCount(smpl) == |smpl| then [] else FullBox(STSS, 0, U32(SyncCount(smpl)) + SyncNumbers(smpl))
  }

  function Stbl(t: Indexed): (b: seq<Byte>)
    requires Encodable(t)
  {
    Box(STBL, Stsd(t) + Stts(t.smpl) + Stsc() + Stsz(t.smpl) + ChunkOffsets(t.smpl) + Stss(t.smpl))
  }

  function Trak(t: Indexed, id: nat): (b: seq<Byte>)
    requires Encodable(t)
  {
    Box(TRAK, Tkhd(t, id)
      + Box(MDIA, Mdhd(t) + Hdlr(t.info.media) + Box(MINF, MediaHeader(t.info.media) + Dinf() + Stbl(t))))
  }

  /** The tracks that have samples; the others are skipped but keep their number. */
  function Traks(tracks: seq<Indexed>): (b: seq<Byte>)
    requires Indexable(tracks)
  {
    if tracks == [] then []
    else
      var n := |tracks| - 1;
      Traks(tracks[..n]) + if tracks[n].smpl == [] then [] else Trak(tracks[n], n + 1)
  }

  function MetaHandler(): (b: seq<Byte>)
    ensures |b| == 36
  {
    FullBox(HDLR, 0, ZeroBytes(4) + U32(0x6d64_6972) + ZeroBytes(16))
  }

  function CommentItem(text: seq<Byte>): (b: seq<Byte>)
    ensures |b| == 33 + |text|
  {
    Box(ILST, Box(CCMT, Box(DATA, U32(1) + U32(0) + text + [0])))
  }

  function Udta(comment: Option<seq<Byte>>): (b: seq<Byte>)
    ensures |b| <= if comment.Some? then 128 + |comment.value| else 0
  {
    match comment
    case None => []
    case Some(text) => Box(UDTA, FullBox(META, 0, MetaHandler() + CommentItem(text)))
  }

  function Moov(tracks: seq<Indexed>, comment: Option<seq<Byte>>): (b: seq<Byte>)
    requires Indexable(tracks)
  {
    Box(MOOV, Mvhd(tracks) + Traks(tracks) + Udta(comment))
  }

  // ---------------------------------------------------------------- the size of the index

  /** sizeof(sample_t). */
  const SAMPLE_BYTES := 24

  /** The memory that mp4e_flush_index reserves. */
  function IndexBytes(tracks: seq<Indexed>, comment: Option<seq<Byte>>): nat {
    256 + (if comment.Some? then 128 + |comment.value| else 0) + TrackBytes(tracks)
  }

  function TrackBytes(tracks: seq<Indexed>): nat {
    if tracks == [] then 0
    else
      var t := tracks[|tracks| - 1];
      TrackBytes(tracks[..|tracks| - 1]) + 512
        + SAMPLE_BYTES * |t.smpl| * (SAMPLE_BYTES + 4 + 4) / SAMPLE_BYTES + |t.vsps| + |t.vpps|
  }

  lemma SampleBytes(n: nat)
    ensures SAMPLE_BYTES * n * (SAMPLE_BYTES + 4 + 4) / SAMPLE_BYTES == 32 * n
  {
    assert SAMPLE_BYTES * n * (SAMPLE_BYTES + 4 + 4) == SAMPLE_BYTES * (32 * n);
  }

  lemma TrakBound(t: Indexed, id: nat)
    requires Encodable(t)
    ensures |Trak(t, id)| <= 512 + 32 * |t.smpl| + |t.vsps| + |t.vpps|
  {
    hide Stsd, Tkhd, Mdhd, Hdlr, MediaHeader, Dinf, Stts, Stsc, Stsz, ChunkOffsets, Stss;
  }

  lemma {:induction false} TraksBound(tracks: seq<Indexed>)
    requires Indexable(tracks)
    ensures |Traks(tracks)| <= TrackBytes(tracks)
  {
    hide Trak, Encodable;
    if tracks != [] {
      var n := |tracks| - 1;
      assert tracks[n] in tracks;
      TraksBound(tracks[..n]);
      if tracks[n].smpl != [] {
        TrakBound(tracks[n], n + 1);
      }
      SampleBytes(|tracks[n].smpl|);
    }
  }

  /** The index never outgrows the memory reserved for it, whatever the number of tracks, of
      samples, and the lengths of decoder configurations, parameter sets and comment. */
  lemma MoovFits(tracks: seq<Indexed>, comment: Option<seq<Byte>>)
    requires Indexable(tracks)
    ensures |Moov(tracks, comment)| < IndexBytes(tracks, comment)
  {
    hide Mvhd, Traks, Udta, TrackBytes, Encodable;
    TraksBound(tracks);
  }
}
