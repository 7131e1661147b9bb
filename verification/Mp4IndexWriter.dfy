/** mp4e_flush_index of stream/minimp4.hpp as it runs: boxes are opened with an unfilled size
    field whose position goes on a stack, and the size is filled in when they are closed. */
module Mp4IndexWriter {
  import opened Seqs
  import opened Wrappers
  import opened Bits
  import opened Mp4Bytes
  import opened Mp4Boxes

  /** An open box, or, below all of them, the buffer itself. */
  datatype Frame = Frame(kind: seq<Byte>, content: seq<Byte>)

  /** The open boxes lie one in the other, each from its position on the stack to the end. */
  ghost predicate Laid(out: seq<Byte>, stack: seq<nat>, open: seq<Frame>)
    decreases stack
  {
    |open| == |stack| + 1 &&
    if stack == [] then out == open[0].content
    else
      var p, top := stack[|stack| - 1], open[|open| - 1];
      && p + 4 <= |out| && out[p + 4..] == top.kind + top.content
      && Laid(out[..p], stack[..|stack| - 1], open[..|open| - 1])
  }

  /** The innermost open box with x behind its content. */
  ghost function Grown(open: seq<Frame>, x: seq<Byte>): (r: seq<Frame>)
    requires open != []
    ensures |r| == |open|
  {
    var n := |open| - 1;
    open[n := open[n].(content := open[n].content + x)]
  }

  lemma LaidPut(out: seq<Byte>, stack: seq<nat>, open: seq<Frame>, x: seq<Byte>)
    requires Laid(out, stack, open)
    ensures Laid(out + x, stack, Grown(open, x))
  {
    if stack != [] {
      var p, n := stack[|stack| - 1], |open| - 1;
      assert (out + x)[..p] == out[..p] && (out + x)[p + 4..] == out[p + 4..] + x;
      Assoc(open[n].kind, open[n].content, x);
      assert Grown(open, x)[..n] == open[..n];
    }
  }

  lemma LaidOpen(out: seq<Byte>, stack: seq<nat>, open: seq<Frame>, hole: seq<Byte>, kind: seq<Byte>)
    requires Laid(out, stack, open) && |hole| == 4
    ensures Laid(out + hole + kind, stack + [|out|], open + [Frame(kind, [])])
  {
    var out', n := out + hole + kind, |out|;
    NothingBehind(kind);
    assert out'[..n] == out && out'[n + 4..] == kind;
    assert (stack + [n])[..|stack|] == stack && (open + [Frame(kind, [])])[..|open|] == open;
  }

  lemma LaidClose(out: seq<Byte>, stack: seq<nat>, open: seq<Frame>)
    requires Laid(out, stack, open) && stack != []
    ensures var p, n := stack[|stack| - 1], |open| - 1;
            && p + 4 <= |out|
            && Laid(out[..p] + U32(|out| - p) + out[p + 4..], stack[..|stack| - 1],
                    Grown(open[..n], Box(open[n].kind, open[n].content)))
  {
    hide U32;
    var p, n := stack[|stack| - 1], |open| - 1;
    var kind, content := open[n].kind, open[n].content;
    LaidPut(out[..p], stack[..|stack| - 1], open[..n], Box(kind, content));
    Assoc(out[..p], U32(|out| - p), kind + content);
    Assoc(U32(4 + |kind| + |content|), kind, content);
  }

  const DEPTH := 20

  class Writer {
    var out: seq<Byte>          // from `base` to `p`
    var stack: seq<nat>         // positions of the unfilled size fields
    ghost var below: seq<Frame> // the boxes around the innermost open one
    ghost var kind: seq<Byte>   // the innermost open box
    ghost var content: seq<Byte>

    ghost predicate Valid()
      reads this
    {
      Laid(out, stack, below + [Frame(kind, content)])
    }

    constructor ()
      ensures Valid() && below == [] && content == [] && out == []
    {
      out, stack, below, kind, content := [], [], [], [], [];
    }

    /** WRITE_1 to WRITE_4, one or several of them. */
    method Put(x: seq<Byte>)
      requires Valid()
      modifies `out, `content
      ensures Valid() && content == old(content) + x
      ensures old(content) == [] ==> content == x
      ensures |out| == old(|out|) + |x|
    {
      hide Laid;
      NothingBehind(x);
      LaidPut(out, stack, below + [Frame(kind, content)], x);
      assert Grown(below + [Frame(kind, content)], x) == below + [Frame(kind, content + x)];
      out := out + x;
      content := content + x;
    }

    /** ATOM. The size field keeps what the memory held. */
    method Atom(boxType: seq<Byte>)
      requires Valid() && |below| < DEPTH
      modifies this
      ensures Valid() && below == old(below) + [Frame(old(kind), old(content))] && kind == boxType && content == []
    {
      hide Laid;
      assert |ZeroBytes(4)| == 4;
      var hole: seq<Byte> :| |hole| == 4;
      LaidOpen(out, stack, below + [Frame(kind, content)], hole, boxType);
      stack := stack + [|out|];
      out := out + hole + boxType;
      below := below + [Frame(kind, content)];
      kind, content := boxType, [];
    }

    /** ATOM_FULL. */
    method AtomFull(boxType: seq<Byte>, flags: nat)
      requires Valid() && |below| < DEPTH
      modifies this
      ensures Valid() && below == old(below) + [Frame(old(kind), old(content))]
      ensures kind == boxType + U32(flags) && content == []
    {
      hide Valid, Laid, U32;
      Atom(boxType + U32(flags));
    }

    /** WR4 on the first four bytes of the open box's content. */
    method Patch(pos: nat, x: seq<Byte>)
      requires Valid() && pos + |content| == |out| && |x| == 4 <= |content|
      modifies `out, `content
      ensures Valid() && content == x + old(content)[4..]
    {
      hide Laid;
      ghost var open := below + [Frame(kind, content)];
      LaidPatch(out, stack, open, pos, x);
      assert open[|open| - 1 := Frame(kind, x + content[4..])] == below + [Frame(kind, x + content[4..])];
      out := out[..pos] + x + out[pos + 4..];
      content := x + content[4..];
    }

    /** END_ATOM: the size field gets the extent of the box. */
    method EndAtom()
      requires Valid() && below != []
      modifies this
      ensures Valid()
      ensures var n := old(|below|) - 1;
              && below == old(below)[..n] && kind == old(below)[n].kind
              && content == old(below)[n].content + Box(old(kind), old(content))
    {
      hide Laid, U32, Box;
      ghost var open, n := below + [Frame(kind, content)], |below|;
      LaidSize(out, stack, open);
      LaidClose(out, stack, open);
      var p := stack[|stack| - 1];
      stack := stack[..|stack| - 1];
      out := out[..p] + U32(|out| - p) + out[p + 4..];
      assert open[..n] == below;
      content := below[n - 1].content + Box(kind, content);
      kind := below[n - 1].kind;
      assert Grown(below, Box(open[n].kind, open[n].content)) == below[..n - 1] + [Frame(kind, content)];
      below := below[..n - 1];
    }
  }

  lemma LaidPatch(out: seq<Byte>, stack: seq<nat>, open: seq<Frame>, pos: nat, x: seq<Byte>)
    requires Laid(out, stack, open)
    requires var top := open[|open| - 1]; pos + |top.content| == |out| && |x| == 4 <= |top.content|
    ensures var n := |open| - 1;
            Laid(out[..pos] + x + out[pos + 4..], stack, open[n := open[n].(content := x + open[n].content[4..])])
  {
    var n := |open| - 1;
    var out', top := out[..pos] + x + out[pos + 4..], open[n];
    var open' := open[n := top.(content := x + top.content[4..])];
    if stack == [] {
      assert out' == x + out[4..];
    } else {
      var p := stack[|stack| - 1];
      assert pos == p + 4 + |top.kind|;
      assert out'[..p] == out[..p];
      Patched(out, p + 4, pos, x, top.kind, top.content);
      assert open'[..n] == open[..n];
    }
  }

  lemma Patched(out: seq<Byte>, q: nat, pos: nat, x: seq<Byte>, kind: seq<Byte>, content: seq<Byte>)
    requires q <= pos <= |out| && out[q..] == kind + content && pos == q + |kind| && |x| == 4 <= |content|
    ensures (out[..pos] + x + out[pos + 4..])[q..] == kind + (x + content[4..])
  {
    var r := out[..pos] + x + out[pos + 4..];
    assert out[q..pos] == out[q..][..|kind|] == kind;
    assert out[pos + 4..] == out[q..][|kind| + 4..] == content[4..];
    assert r[q..] == out[q..pos] + x + out[pos + 4..];
    Assoc(kind, x, content[4..]);
  }

  lemma LaidSize(out: seq<Byte>, stack: seq<nat>, open: seq<Frame>)
    requires Laid(out, stack, open)
    ensures |open| == |stack| + 1
    ensures stack != [] ==> stack[|stack| - 1] + 4 <= |out|
  {}

  // ---------------------------------------------------------------- headers

  method WriteMvhd(w: Writer, tracks: seq<Indexed>)
    requires w.Valid() && |w.below| < DEPTH && Indexable(tracks)
    modifies w
    ensures w.Valid() && w.below == old(w.below) && w.kind == old(w.kind)
    ensures w.content == old(w.content) + Mvhd(tracks)
  {
    hide Writer.Valid, U32, U16, Box, Matrix, Duration;
    w.AtomFull(MVHD, 0);
    w.Put(ZeroBytes(8));
    if |tracks| > 0 {
      w.Put(U32(1000) + U32(Millis(Duration(tracks[0].smpl), tracks[0].info.timeScale)));
    } else {
      NothingBehind(w.content);
    }
    w.Put(U32(0x1_0000));
    w.Put(U16(0x100));
    w.Put(ZeroBytes(10));
    w.Put(Matrix());
    w.Put(ZeroBytes(24));
    w.Put(U32(|tracks| + 1));
    w.EndAtom();
  }

  method WriteTkhd(w: Writer, t: Indexed, id: nat)
    requires w.Valid() && |w.below| + 1 <= DEPTH && Encodable(t)
    modifies w
    ensures w.Valid() && w.below == old(w.below) && w.kind == old(w.kind)
    ensures w.content == old(w.content) + Tkhd(t, id)
  {
    hide Writer.Valid, Box, TrackTimes, TrackShape;
    w.AtomFull(TKHD, 7);
    PutTrackTimes(w, t, id);
    PutTrackShape(w, t.info);
    w.EndAtom();
  }

  method PutTrackTimes(w: Writer, t: Indexed, id: nat)
    requires w.Valid() && w.content == [] && Encodable(t)
    modifies w`out, w`content
    ensures w.Valid() && w.content == TrackTimes(t, id)
  {
    hide Writer.Valid, U32, Duration, Millis;
    w.Put(ZeroBytes(8));
    w.Put(U32(id));
    w.Put(ZeroBytes(4));
    w.Put(U32(Millis(Duration(t.smpl), t.info.timeScale)));
  }

  method PutTrackShape(w: Writer, i: Info)
    requires w.Valid()
    modifies w`out, w`content
    ensures w.Valid() && w.content == old(w.content) + TrackShape(i)
  {
    hide Writer.Valid, U32, U16, Matrix;
    if i.media == Audio || i.media == Private {
      w.Put(ZeroBytes(12) + U16(0x100) + U16(0) + Matrix() + ZeroBytes(8));
    } else {
      w.Put(ZeroBytes(12) + U16(0x100) + U16(0) + Matrix() + (U32(i.width * 0x1_0000) + U32(i.height * 0x1_0000)));
    }
  }

  method WriteMdhd(w: Writer, t: Indexed)
    requires w.Valid() && |w.below| + 1 <= DEPTH && Encodable(t)
    modifies w
    ensures w.Valid() && w.below == old(w.below) && w.kind == old(w.kind)
    ensures w.content == old(w.content) + Mdhd(t)
  {
    hide Writer.Valid, U32, U16, Box, Duration, Language;
    w.AtomFull(MDHD, 0);
    w.Put(ZeroBytes(8));
    w.Put(U32(t.info.timeScale));
    w.Put(U32(Duration(t.smpl)));
    w.Put(U16(Language(t.info.language)));
    w.Put(U16(0));
    w.EndAtom();
  }

  method WriteHdlr(w: Writer, m: Media)
    requires w.Valid() && |w.below| + 1 <= DEPTH
    modifies w
    ensures w.Valid() && w.below == old(w.below) && w.kind == old(w.kind)
    ensures w.content == old(w.content) + Hdlr(m)
  {
    hide Writer.Valid, U32, Box, HandlerName, HandlerType;
    w.AtomFull(HDLR, 0);
    w.Put(ZeroBytes(4));
    w.Put(U32(HandlerType(m)));
    w.Put(ZeroBytes(12));
    w.Put(HandlerName(m));
    w.EndAtom();
  }

  method WriteMediaHeader(w: Writer, m: Media)
    requires w.Valid() && |w.below| + 1 <= DEPTH
    modifies w
    ensures w.Valid() && w.below == old(w.below) && w.kind == old(w.kind)
    ensures w.content == old(w.content) + MediaHeader(m)
  {
    hide Writer.Valid, U32, Box;
    if m == Audio {
      w.AtomFull(SMHD, 0);
      w.Put(ZeroBytes(4));
      w.EndAtom();
    }
    if m == Video {
      w.AtomFull(VMHD, 1);
      w.Put(ZeroBytes(8));
      w.EndAtom();
    }
    if m == Private {
      NothingBehind(w.content);
    }
  }

  method WriteDinf(w: Writer)
    requires w.Valid() && |w.below| + 3 <= DEPTH
    modifies w
    ensures w.Valid() && w.below == old(w.below) && w.kind == old(w.kind)
    ensures w.content == old(w.content) + Dinf()
  {
    hide Writer.Valid, U32, Box;
    w.Atom(DINF);
    w.AtomFull(DREF, 0);
    w.Put(U32(1));
    w.AtomFull(URL, 1);
    w.EndAtom();
    w.EndAtom();
    NothingBehind(FullBox(DREF, 0, U32(1) + FullBox(URL, 1, [])));
    w.EndAtom();
  }

  // ---------------------------------------------------------------- sample entries

  /** od_size_of_size. */
  method OdSizeOfSize(size: nat) returns (sizeOfSize: nat)
    ensures sizeOfSize == |OdLength(size)|
  {
    sizeOfSize := 1;
    var i := size;
    while i > 0x7F
      invariant i >= 0 && sizeOfSize + |OdLength(i)| == 1 + |OdLength(size)|
    {
      i := i - 0x7F;
      sizeOfSize := sizeOfSize + 1;
    }
  }

  /** WRITE_OD_LEN, which counts its variable down. */
  method PutOdLength(w: Writer, size: nat) returns (rest: nat)
    requires w.Valid()
    modifies w`out, w`content
    ensures w.Valid() && w.content == old(w.content) + OdLength(size) && rest == OdRest(size)
  {
    hide Writer.Valid;
    rest := size;
    NothingBehind(w.content);
    while rest > 0x7F
      invariant w.Valid() && w.content + OdLength(rest) == old(w.content) + OdLength(size)
      invariant OdRest(rest) == OdRest(size)
    {
      Assoc(w.content, [0xff], OdLength(rest - 0x7F));
      rest := rest - 0x7F;
      w.Put([0xff]);
    }
    w.Put([rest]);
  }

  method WriteDescriptors(w: Writer, t: Indexed)
    requires w.Valid() && w.content == [] && Encodable(t) && t.info.media != Video && t.vsps != []
    modifies w`out, w`content
    ensures w.Valid() && w.content == Descriptors(t)
  {
    hide Writer.Valid, EsDescriptor, DecoderConfig, SpecificInfo, OdLength, OdRest;
    var dsi := |t.vsps| - 2;
    var dsiSize := OdSizeOfSize(dsi);
    var dcd := dsi + dsiSize + 1 + (1 + 1 + 3 + 4 + 4);
    var dcdSize := OdSizeOfSize(dcd);
    var esd := dcd + dcdSize + 1 + 3;
    WriteEsDescriptor(w, esd);
    NothingBehind(EsDescriptor(esd));
    WriteDecoderConfig(w, t, dcd);
    WriteSpecificInfo(w, t.vsps);
  }

  method WriteEsDescriptor(w: Writer, size: nat)
    requires w.Valid()
    modifies w`out, w`content
    ensures w.Valid() && w.content == old(w.content) + EsDescriptor(size)
  {
    hide Writer.Valid, OdLength, OdRest;
    Assoc(w.content, [3], OdLength(size));
    Assoc(w.content, [3] + OdLength(size), ZeroBytes(3));
    w.Put([3]);
    var _ := PutOdLength(w, size);
    w.Put(ZeroBytes(3));
  }

  method WriteDecoderConfig(w: Writer, t: Indexed, size: nat)
    requires w.Valid()
    modifies w`out, w`content
    ensures w.Valid() && w.content == old(w.content) + DecoderConfig(t, size)
  {
    hide Writer.Valid, OdLength, OdRest, U24;
    ghost var c, kind := w.content, if t.info.media == Audio then [0x40, 20] else [208, 128];
    Assoc(c, [4], OdLength(size));
    Assoc(c, [4] + OdLength(size), kind);
    Assoc(c, [4] + OdLength(size) + kind, U24(t.info.channels * 6144 / 8));
    Assoc(c, [4] + OdLength(size) + kind + U24(t.info.channels * 6144 / 8), ZeroBytes(8));
    w.Put([4]);
    var _ := PutOdLength(w, size);
    if t.info.media == Audio {
      w.Put([0x40, 20]);
    } else {
      w.Put([208, 128]);
    }
    w.Put(U24(t.info.channels * 6144 / 8));
    w.Put(ZeroBytes(8));
  }

  method WriteSpecificInfo(w: Writer, vsps: seq<Byte>)
    requires w.Valid() && |vsps| >= 2
    modifies w`out, w`content
    ensures w.Valid() && w.content == old(w.content) + SpecificInfo(vsps[2..])
  {
    hide Writer.Valid, OdLength, OdRest;
    ghost var c, dsi := w.content, vsps[2..];
    Assoc(c, [5], OdLength(|dsi|));
    Assoc(c, [5] + OdLength(|dsi|), dsi[..OdRest(|dsi|)]);
    w.Put([5]);
    var dsiBytes := PutOdLength(w, |vsps| - 2);
    assert vsps[2..2 + dsiBytes] == dsi[..dsiBytes];
    w.Put(vsps[2..2 + dsiBytes]);
  }

  method WriteEsds(w: Writer, t: Indexed)
    requires w.Valid() && |w.below| + 1 <= DEPTH && Encodable(t) && t.info.media != Video
    modifies w
    ensures w.Valid() && w.below == old(w.below) && w.kind == old(w.kind)
    ensures w.content == old(w.content) + Esds(t)
  {
    hide Writer.Valid, U32, Box, Descriptors;
    w.AtomFull(ESDS, 0);
    if |t.vsps| > 0 {
      WriteDescriptors(w, t);
      NothingBehind(Descriptors(t));
    }
    w.EndAtom();
  }

  method WriteAudioEntry(w: Writer, t: Indexed)
    requires w.Valid() && |w.below| + 2 <= DEPTH && Encodable(t) && t.info.media != Video
    modifies w
    ensures w.Valid() && w.below == old(w.below) && w.kind == old(w.kind)
    ensures w.content == old(w.content) + AudioEntry(t)
  {
    hide Writer.Valid, Box, Esds, AudioFields;
    if t.info.media == Audio {
      w.Atom(MP4A);
    } else {
      w.Atom(MP4S);
    }
    PutAudioFields(w, t.info);
    WriteEsds(w, t);
    w.EndAtom();
  }

  method PutAudioFields(w: Writer, i: Info)
    requires w.Valid() && w.content == []
    modifies w`out, w`content
    ensures w.Valid() && w.content == AudioFields(i)
  {
    hide Writer.Valid, U32, U16;
    w.Put(ZeroBytes(6));
    w.Put(U16(1));
    if i.media == Audio {
      w.Put(ZeroBytes(8) + U16(i.channels) + U16(16) + ZeroBytes(4) + U32(i.timeScale * 0x1_0000));
    } else {
      NothingBehind(w.content);
    }
  }

  method ItemsCount(v: seq<Byte>) returns (count: nat)
    ensures count == Items(v, 0)
  {
    var i: nat := 0;
    count := 0;
    while i + 2 < |v|
      invariant Items(v, 0) == count + if i <= |v| then Items(v, i) else 0
      decreases |v| - i
    {
      var cb := v[i] as nat * 256 + v[i + 1] as nat;
      count := count + 1;
      i := i + 2 + cb;
    }
  }

  method WriteVideoEntry(w: Writer, t: Indexed)
    requires w.Valid() && |w.below| + 2 <= DEPTH && |t.vsps| >= 6
    modifies w
    ensures w.Valid() && w.below == old(w.below) && w.kind == old(w.kind)
    ensures w.content == old(w.content) + VideoEntry(t)
  {
    hide Writer.Valid, Box, AvcConfig, VisualSize, VisualRest;
    w.Atom(AVC1);
    PutVisualSize(w, t.info);
    w.Put(VisualRest());
    WriteAvcConfig(w, t);
    w.EndAtom();
  }

  method PutVisualSize(w: Writer, i: Info)
    requires w.Valid() && w.content == []
    modifies w`out, w`content
    ensures w.Valid() && w.content == VisualSize(i)
  {
    hide Writer.Valid, U16;
    w.Put(ZeroBytes(6));
    w.Put(U16(1));
    w.Put(ZeroBytes(16));
    w.Put(U16(i.width));
    w.Put(U16(i.height));
  }

  method WriteAvcConfig(w: Writer, t: Indexed)
    requires w.Valid() && |w.below| + 1 <= DEPTH && |t.vsps| >= 6
    modifies w
    ensures w.Valid() && w.below == old(w.below) && w.kind == old(w.kind)
    ensures w.content == old(w.content) + AvcConfig(t)
  {
    hide Writer.Valid, U8, Box, Items;
    var numOfSequenceParameterSets := ItemsCount(t.vsps);
    var numOfPictureParameterSets := ItemsCount(t.vpps);
    w.Atom(AVCC);
    w.Put([1, t.vsps[3], t.vsps[4], t.vsps[5], 255, 0xe0 + numOfSequenceParameterSets % 32]);
    w.Put(t.vsps);
    w.Put(U8(numOfPictureParameterSets));
    w.Put(t.vpps);
    w.EndAtom();
  }

  method WriteStsd(w: Writer, t: Indexed)
    requires w.Valid() && |w.below| + 3 <= DEPTH && Encodable(t)
    modifies w
    ensures w.Valid() && w.below == old(w.below) && w.kind == old(w.kind)
    ensures w.content == old(w.content) + Stsd(t)
  {
    hide Writer.Valid, U32, Box, AudioEntry, VideoEntry;
    w.AtomFull(STSD, 0);
    w.Put(U32(1));
    if t.info.media == Audio || t.info.media == Private {
      WriteAudioEntry(w, t);
    } else if t.info.objectType == AVC {
      WriteVideoEntry(w, t);
    } else {
      NothingBehind(w.content);
    }
    w.EndAtom();
  }

  // ---------------------------------------------------------------- sample tables

  method WriteStts(w: Writer, smpl: seq<Sample>)
    requires w.Valid() && |w.below| + 1 <= DEPTH
    modifies w
    ensures w.Valid() && w.below == old(w.below) && w.kind == old(w.kind)
    ensures w.content == old(w.content) + Stts(smpl)
  {
    hide Writer.Valid, U32, Box, Runs, RunBytes;
    w.AtomFull(STTS, 0);
    var entryCount := PutRuns(w, smpl);
    w.EndAtom();
  }

  lemma RunsStep(smpl: seq<Sample>, i: nat, cnt: nat)
    requires i <= |smpl|
    ensures i == |smpl| ==> Runs(smpl, i, cnt) == []
    ensures i < |smpl| ==>
              (Runs(smpl, i, cnt) ==
                 if i == |smpl| - 1 || smpl[i].duration != smpl[i + 1].duration
                 then [Run(cnt, smpl[i].duration)] + Runs(smpl, i + 1, 1)
                 else Runs(smpl, i + 1, cnt + 1))
  {}

  lemma RunBytesSnoc(runs: seq<Run>, r: Run)
    ensures RunBytes(runs + [r]) == RunBytes(runs) + (U32(r.count) + U32(r.duration)) && RunBytes([]) == []
  {
    assert (runs + [r])[..|runs|] == runs;
  }

  /** One more sample, with `done` the runs that are written. */
  lemma RunsNext(smpl: seq<Sample>, i: nat, cnt: nat, done: seq<Run>, all: seq<Run>)
    requires i < |smpl| && done + Runs(smpl, i, cnt) == all
    ensures var r := Run(cnt, smpl[i].duration);
            if i == |smpl| - 1 || smpl[i].duration != smpl[i + 1].duration then
              && done + [r] + Runs(smpl, i + 1, 1) == all
              && U32(0) + RunBytes(done) + (U32(cnt) + U32(r.duration)) == U32(0) + RunBytes(done + [r])
            else done + Runs(smpl, i + 1, cnt + 1) == all
  {
    hide Runs, RunBytes, U32;
    var r := Run(cnt, smpl[i].duration);
    RunsStep(smpl, i, cnt);
    RunBytesSnoc(done, r);
    Assoc(U32(0), RunBytes(done), U32(cnt) + U32(r.duration));
    Assoc(done, [r], Runs(smpl, i + 1, 1));
  }

  /** The entries of stts, counted on the way; the count goes in front of them at the end. */
  method PutRuns(w: Writer, smpl: seq<Sample>) returns (entryCount: nat)
    requires w.Valid() && w.content == []
    modifies w`out, w`content
    ensures w.Valid() && entryCount == |Runs(smpl, 0, 1)|
    ensures w.content == U32(entryCount) + RunBytes(Runs(smpl, 0, 1))
  {
    hide Writer.Valid, U32, Runs, RunBytes;
    var pentryCount := |w.out|;
    var cnt := 1;
    entryCount := 0;
    w.Put(U32(0));
    ghost var done: seq<Run> := [];
    RunBytesSnoc([], Run(0, 0));
    NothingBehind(U32(0));
    NothingBehind(Runs(smpl, 0, 1));
    for i := 0 to |smpl|
      invariant w.Valid() && cnt >= 1 && entryCount == |done| && done + Runs(smpl, i, cnt) == Runs(smpl, 0, 1)
      invariant w.content == U32(0) + RunBytes(done) && pentryCount + |w.content| == |w.out|
    {
      RunsNext(smpl, i, cnt, done, Runs(smpl, 0, 1));
      if i == |smpl| - 1 || smpl[i].duration != smpl[i + 1].duration {
        done := done + [Run(cnt, smpl[i].duration)];
        w.Put(U32(cnt) + U32(smpl[i].duration));
        cnt := 0;
        entryCount := entryCount + 1;
      }
      cnt := cnt + 1;
    }
    RunsStep(smpl, |smpl|, cnt);
    NothingBehind(done);
    Halves(U32(0), RunBytes(done));
    w.Patch(pentryCount, U32(entryCount));
  }

  method WriteStsc(w: Writer)
    requires w.Valid() && |w.below| + 1 <= DEPTH
    modifies w
    ensures w.Valid() && w.below == old(w.below) && w.kind == old(w.kind)
    ensures w.content == old(w.content) + Stsc()
  {
    hide Writer.Valid, U32, Box;
    w.AtomFull(STSC, 0);
    w.Put(U32(1));
    w.Put(U32(1));
    w.Put(U32(1));
    w.Put(U32(1));
    w.EndAtom();
  }

  lemma SizesStep(smpl: seq<Sample>, k: nat)
    requires k <= |smpl|
    ensures k == 0 ==> Sizes(smpl[..k]) == []
    ensures k < |smpl| ==> Sizes(smpl[..k + 1]) == Sizes(smpl[..k]) + U32(smpl[k].size)
  {
    assert k < |smpl| ==> smpl[..k + 1][..k] == smpl[..k];
  }

  method PutSizes(w: Writer, smpl: seq<Sample>)
    requires w.Valid()
    modifies w`out, w`content
    ensures w.Valid() && w.content == old(w.content) + Sizes(smpl)
  {
    hide Writer.Valid, U32, Sizes;
    SizesStep(smpl, 0);
    NothingBehind(w.content);
    for i := 0 to |smpl|
      invariant w.Valid() && w.content == old(w.content) + Sizes(smpl[..i])
    {
      SizesStep(smpl, i);
      Assoc(old(w.content), Sizes(smpl[..i]), U32(smpl[i].size));
      w.Put(U32(smpl[i].size));
    }
    assert smpl[..|smpl|] == smpl;
  }

  method WriteStsz(w: Writer, smpl: seq<Sample>)
    requires w.Valid() && |w.below| + 1 <= DEPTH
    modifies w
    ensures w.Valid() && w.below == old(w.below) && w.kind == old(w.kind)
    ensures w.content == old(w.content) + Stsz(smpl)
  {
    hide Writer.Valid, U32, Box, Sizes;
    w.AtomFull(STSZ, 0);
    w.Put(U32(0));
    w.Put(U32(|smpl|));
    PutSizes(w, smpl);
    w.EndAtom();
  }

  lemma OffsetsStep(smpl: seq<Sample>, k: nat)
    requires k <= |smpl|
    ensures k == 0 ==> Offsets(smpl[..k]) == []
    ensures k < |smpl| ==> Offsets(smpl[..k + 1]) == Offsets(smpl[..k]) + U32(smpl[k].offset)
  {
    assert k < |smpl| ==> smpl[..k + 1][..k] == smpl[..k];
  }

  method PutOffsets(w: Writer, smpl: seq<Sample>)
    requires w.Valid()
    modifies w`out, w`content
    ensures w.Valid() && w.content == old(w.content) + Offsets(smpl)
  {
    hide Writer.Valid, U32, Offsets;
    OffsetsStep(smpl, 0);
    NothingBehind(w.content);
    for i := 0 to |smpl|
      invariant w.Valid() && w.content == old(w.content) + Offsets(smpl[..i])
    {
      OffsetsStep(smpl, i);
      Assoc(old(w.content), Offsets(smpl[..i]), U32(smpl[i].offset));
      w.Put(U32(smpl[i].offset));
    }
    assert smpl[..|smpl|] == smpl;
  }

  lemma WideOffsetsStep(smpl: seq<Sample>, k: nat)
    requires k <= |smpl|
    ensures k == 0 ==> WideOffsets(smpl[..k]) == []
    ensures k < |smpl| ==>
              WideOffsets(smpl[..k + 1]) == WideOffsets(smpl[..k]) + (U32(smpl[k].offset / WORD) + U32(smpl[k].offset))
  {
    assert k < |smpl| ==> smpl[..k + 1][..k] == smpl[..k];
  }

  method PutWideOffsets(w: Writer, smpl: seq<Sample>)
    requires w.Valid()
    modifies w`out, w`content
    ensures w.Valid() && w.content == old(w.content) + WideOffsets(smpl)
  {
    hide Writer.Valid, U32, WideOffsets;
    WideOffsetsStep(smpl, 0);
    NothingBehind(w.content);
    for i := 0 to |smpl|
      invariant w.Valid() && w.content == old(w.content) + WideOffsets(smpl[..i])
    {
      WideOffsetsStep(smpl, i);
      Assoc(old(w.content), WideOffsets(smpl[..i]), (U32(smpl[i].offset / WORD) + U32(smpl[i].offset)));
      w.Put(U32(smpl[i].offset / WORD) + U32(smpl[i].offset));
    }
    assert smpl[..|smpl|] == smpl;
  }

  method WriteChunkOffsets(w: Writer, smpl: seq<Sample>)
    requires w.Valid() && |w.below| + 1 <= DEPTH
    modifies w
    ensures w.Valid() && w.below == old(w.below) && w.kind == old(w.kind)
    ensures w.content == old(w.content) + ChunkOffsets(smpl)
  {
    hide Writer.Valid, U32, Box, Offsets, WideOffsets;
    var is64Bit := |smpl| != 0 && smpl[|smpl| - 1].offset > 0xffff_ffff;
    if !is64Bit {
      w.AtomFull(STCO, 0);
      w.Put(U32(|smpl|));
      PutOffsets(w, smpl);
    } else {
      w.AtomFull(CO64, 0);
      w.Put(U32(|smpl|));
      PutWideOffsets(w, smpl);
    }
    w.EndAtom();
  }

  lemma SyncStep(smpl: seq<Sample>, k: nat)
    requires k <= |smpl|
    ensures k == 0 ==> SyncCount(smpl[..k]) == 0
    ensures k < |smpl| ==> SyncCount(smpl[..k + 1]) == SyncCount(smpl[..k]) + if smpl[k].sync then 1 else 0
  {
    assert k < |smpl| ==> smpl[..k + 1][..k] == smpl[..k];
  }

  lemma SyncNumbersStep(smpl: seq<Sample>, k: nat)
    requires k <= |smpl|
    ensures k == 0 ==> SyncNumbers(smpl[..k]) == []
    ensures k < |smpl| ==>
              SyncNumbers(smpl[..k + 1]) == SyncNumbers(smpl[..k]) + (if smpl[k].sync then U32(k + 1) else [])
  {
    assert k < |smpl| ==> smpl[..k + 1][..k] == smpl[..k];
  }

  method PutSyncNumbers(w: Writer, smpl: seq<Sample>)
    requires w.Valid()
    modifies w`out, w`content
    ensures w.Valid() && w.content == old(w.content) + SyncNumbers(smpl)
  {
    hide Writer.Valid, U32, SyncNumbers;
    SyncNumbersStep(smpl, 0);
    NothingBehind(w.content);
    for i := 0 to |smpl|
      invariant w.Valid() && w.content == old(w.content) + SyncNumbers(smpl[..i])
    {
      SyncNumbersStep(smpl, i);
      Assoc(old(w.content), SyncNumbers(smpl[..i]), (if smpl[i].sync then U32(i + 1) else []));
      if smpl[i].sync {
        w.Put(U32(i + 1));
      } else {
        NothingBehind(w.content);
      }
    }
    assert smpl[..|smpl|] == smpl;
  }

  method WriteStss(w: Writer, smpl: seq<Sample>)
    requires w.Valid() && |w.below| + 1 <= DEPTH
    modifies w
    ensures w.Valid() && w.below == old(w.below) && w.kind == old(w.kind)
    ensures w.content == old(w.content) + Stss(smpl)
  {
    hide Writer.Valid, U32, Box, SyncNumbers, SyncCount;
    var raCount := 0;
    SyncStep(smpl, 0);
    for i := 0 to |smpl|
      invariant raCount == SyncCount(smpl[..i]) && w.Valid() && w.content == old(w.content)
      invariant w.below == old(w.below) && w.kind == old(w.kind)
    {
      SyncStep(smpl, i);
      raCount := raCount + if smpl[i].sync then 1 else 0;
    }
    assert smpl[..|smpl|] == smpl;
    if raCount != |smpl| {
      w.AtomFull(STSS, 0);
      w.Put(U32(raCount));
      PutSyncNumbers(w, smpl);
      w.EndAtom();
    } else {
      NothingBehind(w.content);
    }
  }

  // ---------------------------------------------------------------- tracks and the movie

  method WriteStbl(w: Writer, t: Indexed)
    requires w.Valid() && |w.below| + 4 <= DEPTH && Encodable(t)
    modifies w
    ensures w.Valid() && w.below == old(w.below) && w.kind == old(w.kind)
    ensures w.content == old(w.content) + Stbl(t)
  {
    hide Writer.Valid, Box, Stsd, Stts, Stsc, Stsz, ChunkOffsets, Stss, Encodable;
    w.Atom(STBL);
    WriteStsd(w, t);
    WriteStts(w, t.smpl);
    WriteStsc(w);
    WriteStsz(w, t.smpl);
    WriteChunkOffsets(w, t.smpl);
    WriteStss(w, t.smpl);
    NothingBehind(Stsd(t));
    w.EndAtom();
  }

  method WriteTrak(w: Writer, t: Indexed, id: nat)
    requires w.Valid() && |w.below| + 7 <= DEPTH && Encodable(t)
    modifies w
    ensures w.Valid() && w.below == old(w.below) && w.kind == old(w.kind)
    ensures w.content == old(w.content) + Trak(t, id)
  {
    hide Writer.Valid, Box, Tkhd, Mdhd, Hdlr, MediaHeader, Dinf, Stbl, Encodable;
    w.Atom(TRAK);
    WriteTkhd(w, t, id);
    NothingBehind(Tkhd(t, id));
    w.Atom(MDIA);
    WriteMdhd(w, t);
    NothingBehind(Mdhd(t));
    WriteHdlr(w, t.info.media);
    w.Atom(MINF);
    WriteMediaHeader(w, t.info.media);
    NothingBehind(MediaHeader(t.info.media));
    WriteDinf(w);
    WriteStbl(w, t);
    w.EndAtom();
    w.EndAtom();
    w.EndAtom();
  }

  lemma TraksStep(tracks: seq<Indexed>, k: nat)
    requires k <= |tracks| && Indexable(tracks)
    ensures k == 0 ==> Traks(tracks[..k]) == []
    ensures k < |tracks| && tracks[k].smpl != [] ==> Encodable(tracks[k])
    ensures k < |tracks| ==>
              (Traks(tracks[..k + 1]) ==
                 Traks(tracks[..k]) + if tracks[k].smpl == [] then [] else Trak(tracks[k], k + 1))
  {
    hide Encodable;
    assert k < |tracks| ==> tracks[..k + 1][..k] == tracks[..k] && tracks[k] in tracks;
  }

  method WriteTraks(w: Writer, tracks: seq<Indexed>)
    requires w.Valid() && |w.below| + 7 <= DEPTH && Indexable(tracks)
    modifies w
    ensures w.Valid() && w.below == old(w.below) && w.kind == old(w.kind)
    ensures w.content == old(w.content) + Traks(tracks)
  {
    hide Writer.Valid, Traks, Trak, Encodable;
    TraksStep(tracks, 0);
    NothingBehind(w.content);
    for ntr := 0 to |tracks|
      invariant w.Valid() && w.below == old(w.below) && w.kind == old(w.kind)
      invariant w.content == old(w.content) + Traks(tracks[..ntr])
    {
      TraksStep(tracks, ntr);
      Assoc(old(w.content), Traks(tracks[..ntr]), if tracks[ntr].smpl == [] then [] else Trak(tracks[ntr], ntr + 1));
      if |tracks[ntr].smpl| > 0 {
        WriteTrak(w, tracks[ntr], ntr + 1);
      } else {
        NothingBehind(w.content);
      }
    }
    assert tracks[..|tracks|] == tracks;
  }

  method WriteUdta(w: Writer, comment: Option<seq<Byte>>)
    requires w.Valid() && |w.below| + 5 <= DEPTH
    modifies w
    ensures w.Valid() && w.below == old(w.below) && w.kind == old(w.kind)
    ensures w.content == old(w.content) + Udta(comment)
  {
    hide Writer.Valid, Box, MetaHandler, CommentItem, U32;
    match comment
    case None =>
      NothingBehind(w.content);
    case Some(text) =>
      w.Atom(UDTA);
      w.AtomFull(META, 0);
      WriteMetaHandler(w);
      NothingBehind(MetaHandler());
      WriteCommentItem(w, text);
      w.EndAtom();
      NothingBehind(FullBox(META, 0, MetaHandler() + CommentItem(text)));
      w.EndAtom();
  }

  method WriteMetaHandler(w: Writer)
    requires w.Valid() && |w.below| + 1 <= DEPTH
    modifies w
    ensures w.Valid() && w.below == old(w.below) && w.kind == old(w.kind)
    ensures w.content == old(w.content) + MetaHandler()
  {
    hide Writer.Valid, U32, Box;
    w.AtomFull(HDLR, 0);
    w.Put(ZeroBytes(4));
    w.Put(U32(0x6d64_6972));
    w.Put(ZeroBytes(16));
    w.EndAtom();
  }

  method WriteCommentItem(w: Writer, text: seq<Byte>)
    requires w.Valid() && |w.below| + 3 <= DEPTH
    modifies w
    ensures w.Valid() && w.below == old(w.below) && w.kind == old(w.kind)
    ensures w.content == old(w.content) + CommentItem(text)
  {
    hide Writer.Valid, U32, Box;
    w.Atom(ILST);
    w.Atom(CCMT);
    w.Atom(DATA);
    w.Put(U32(1));
    w.Put(U32(0));
    w.Put(text);
    w.Put([0]);
    w.EndAtom();
    NothingBehind(Box(DATA, U32(1) + U32(0) + text + [0]));
    w.EndAtom();
    NothingBehind(Box(CCMT, Box(DATA, U32(1) + U32(0) + text + [0])));
    w.EndAtom();
  }

  /** The index: boxes nested one in the other, each size field the extent of its box, in no
      more memory than was reserved. */
  method BuildIndex(tracks: seq<Indexed>, comment: Option<seq<Byte>>) returns (out: seq<Byte>)
    requires Indexable(tracks)
    ensures out == Moov(tracks, comment)
    ensures |out| <= IndexBytes(tracks, comment)
  {
    hide Box, Mvhd, Traks, Udta, IndexBytes, Encodable;
    var w := new Writer();
    w.Atom(MOOV);
    WriteMvhd(w, tracks);
    NothingBehind(Mvhd(tracks));
    WriteTraks(w, tracks);
    WriteUdta(w, comment);
    w.EndAtom();
    out := w.out;
    Finished(w);
    MoovFits(tracks, comment);
  }

  lemma Finished(w: Writer)
    requires w.Valid() && w.below == []
    ensures w.out == w.content
  {}
}
