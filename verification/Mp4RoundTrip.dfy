/** What the muxer of stream/minimp4.hpp writes, its demuxer reads back: sample tables, and
    through them the bytes of every sample. */
module Mp4RoundTrip {
  import opened Seqs
  import opened Wrappers
  import opened Bits
  import opened Mp4Bytes
  import opened Mp4Boxes
  import opened Mp4Samples
  import opened Mp4Direct
  import opened Mp4Mux
  import opened Mp4Tree
  import opened Mp4Demux
  import opened Mp4Walk
  import opened Mp4Descriptors
  import opened Mp4Open
  import opened Mp4Reach
  import opened Mp4File
  import opened Mp4Fields
  import opened Mp4Index

  /** A number written behind the first n bytes. */
  lemma WordBehind(front: seq<Byte>, x: int, back: seq<Byte>, pos: nat)
    requires |front| == pos
    ensures Word(front + U32(x) + back, pos) == x % WORD
  {
    hide U32;
    SplitTriple(front, U32(x), back);
    assert (front + U32(x) + back)[pos..pos + 4] == U32(x);
    Value32OfU32(x);
  }

  lemma WordFront(head: seq<Byte>, data: seq<Byte>, pos: nat, off: nat)
    requires |head| == off && pos + 4 <= |data|
    ensures Word(head + data, off + pos) == Word(data, pos)
  {
    hide Value32;
    assert (head + data)[off + pos..off + pos + 4] == data[pos..pos + 4];
  }

  lemma WordOfPrefix(data: seq<Byte>, more: seq<Byte>, pos: nat)
    requires pos + 4 <= |data|
    ensures Word(data + more, pos) == Word(data, pos)
  {
    hide Value32;
    assert (data + more)[pos..pos + 4] == data[pos..pos + 4];
  }

  lemma {:induction false} SizesAt(smpl: seq<Sample>, k: nat)
    requires k < |smpl|
    ensures Word(Sizes(smpl), 4 * k) == smpl[k].size % WORD
    decreases |smpl|
  {
    hide Sizes, U32, Word;
    var n := |smpl| - 1;
    SizesSnoc(smpl);
    if k == n {
      WordBehind(Sizes(smpl[..n]), smpl[n].size, [], 4 * n);
      NothingBehind(Sizes(smpl));
    } else {
      SizesAt(smpl[..n], k);
      WordOfPrefix(Sizes(smpl[..n]), U32(smpl[n].size), 4 * k);
    }
  }

  lemma SizesSnoc(smpl: seq<Sample>)
    requires smpl != []
    ensures var n := |smpl| - 1; Sizes(smpl) == Sizes(smpl[..n]) + U32(smpl[n].size)
  {}

  lemma {:induction false} OffsetsAt(smpl: seq<Sample>, k: nat)
    requires k < |smpl|
    ensures Word(Offsets(smpl), 4 * k) == smpl[k].offset % WORD
    decreases |smpl|
  {
    hide Offsets, U32, Word;
    var n := |smpl| - 1;
    OffsetsSnoc(smpl);
    if k == n {
      WordBehind(Offsets(smpl[..n]), smpl[n].offset, [], 4 * n);
      NothingBehind(Offsets(smpl));
    } else {
      OffsetsAt(smpl[..n], k);
      WordOfPrefix(Offsets(smpl[..n]), U32(smpl[n].offset), 4 * k);
    }
  }

  lemma OffsetsSnoc(smpl: seq<Sample>)
    requires smpl != []
    ensures var n := |smpl| - 1; Offsets(smpl) == Offsets(smpl[..n]) + U32(smpl[n].offset)
  {}

  lemma {:induction false} WideOffsetsAt(smpl: seq<Sample>, k: nat)
    requires k < |smpl|
    ensures Word(WideOffsets(smpl), 8 * k) == smpl[k].offset / WORD % WORD
    ensures Word(WideOffsets(smpl), 8 * k + 4) == smpl[k].offset % WORD
    decreases |smpl|
  {
    hide WideOffsets, U32, Word;
    var n := |smpl| - 1;
    WideOffsetsSnoc(smpl);
    var hi, lo, front := U32(smpl[n].offset / WORD), U32(smpl[n].offset), WideOffsets(smpl[..n]);
    if k == n {
      Assoc(front, hi, lo);
      WordBehind(front, smpl[n].offset / WORD, lo, 8 * n);
      WordBehind(front + hi, smpl[n].offset, [], 8 * n + 4);
      NothingBehind(WideOffsets(smpl));
    } else {
      WideOffsetsAt(smpl[..n], k);
      WordOfPrefix(front, hi + lo, 8 * k);
      WordOfPrefix(front, hi + lo, 8 * k + 4);
    }
  }

  lemma WideOffsetsSnoc(smpl: seq<Sample>)
    requires smpl != []
    ensures var n := |smpl| - 1;
            WideOffsets(smpl) == WideOffsets(smpl[..n]) + (U32(smpl[n].offset / WORD) + U32(smpl[n].offset))
  {}

  lemma {:induction false} RunsAt(runs: seq<Run>, k: nat)
    requires k < |runs|
    ensures Word(RunBytes(runs), 8 * k) == runs[k].count % WORD
    ensures Word(RunBytes(runs), 8 * k + 4) == runs[k].duration % WORD
    decreases |runs|
  {
    hide RunBytes, U32, Word;
    var n := |runs| - 1;
    RunsSnoc(runs);
    var a, b, front := U32(runs[n].count), U32(runs[n].duration), RunBytes(runs[..n]);
    if k == n {
      Assoc(front, a, b);
      WordBehind(front, runs[n].count, b, 8 * n);
      WordBehind(front + a, runs[n].duration, [], 8 * n + 4);
      NothingBehind(RunBytes(runs));
    } else {
      RunsAt(runs[..n], k);
      WordOfPrefix(front, a + b, 8 * k);
      WordOfPrefix(front, a + b, 8 * k + 4);
    }
  }

  lemma RunsSnoc(runs: seq<Run>)
    requires runs != []
    ensures var n := |runs| - 1; RunBytes(runs) == RunBytes(runs[..n]) + (U32(runs[n].count) + U32(runs[n].duration))
  {}

  // ---------------------------------------------------------------- durations

  /** The fields of a sample are 32 bits wide, its offset 64. */
  predicate Fits(smpl: seq<Sample>) {
    && |smpl| < WORD
    && forall i | 0 <= i < |smpl| :: smpl[i].size < WORD && smpl[i].duration < WORD && smpl[i].offset < WORD * WORD
  }

  function DurationsOf(smpl: seq<Sample>): (d: seq<nat>)
    ensures |d| == |smpl| && forall i | 0 <= i < |smpl| :: d[i] == smpl[i].duration
  {
    if smpl == [] then [] else DurationsOf(smpl[..|smpl| - 1]) + [smpl[|smpl| - 1].duration]
  }

  /** What a list of runs stands for, from the k-th run on. */
  function Expand(runs: seq<Run>): seq<nat> {
    if runs == [] then [] else Repeat(runs[0].duration, runs[0].count) + Expand(runs[1..])
  }

  /** Run-length coding the durations and expanding the runs gives the durations back. */
  lemma {:induction false} ExpandRuns(smpl: seq<Sample>, i: nat, cnt: nat)
    requires i <= |smpl| && cnt >= 1
    ensures i < |smpl| ==> Expand(Runs(smpl, i, cnt)) == Repeat(smpl[i].duration, cnt - 1) + DurationsOf(smpl)[i..]
    ensures i == |smpl| ==> Expand(Runs(smpl, i, cnt)) == []
    decreases |smpl| - i
  {
    hide Repeat, DurationsOf;
    if i < |smpl| {
      var d, all := smpl[i].duration, DurationsOf(smpl);
      assert all[i..] == [d] + all[i + 1..];
      RepeatNext(d, cnt, all[i + 1..]);
      if i == |smpl| - 1 || d != smpl[i + 1].duration {
        ExpandRuns(smpl, i + 1, 1);
        var rest := Runs(smpl, i + 1, 1);
        assert ([Run(cnt, d)] + rest)[1..] == rest;
        if i == |smpl| - 1 {
          assert all[i + 1..] == [];
        } else {
          RepeatNone(smpl[i + 1].duration, all[i + 1..]);
        }
      } else {
        ExpandRuns(smpl, i + 1, cnt + 1);
      }
    }
  }

  lemma RepeatNext(d: nat, cnt: nat, rest: seq<nat>)
    requires cnt >= 1
    ensures Repeat(d, cnt - 1) + ([d] + rest) == Repeat(d, cnt) + rest
  {
    Assoc(Repeat(d, cnt - 1), [d], rest);
  }

  lemma RepeatNone(d: nat, rest: seq<nat>)
    ensures Repeat(d, 0) + rest == rest
  {}

  lemma {:induction false} RunsFit(smpl: seq<Sample>, i: nat, cnt: nat)
    requires Fits(smpl) && i <= |smpl| && cnt <= i + 1
    ensures forall r | r in Runs(smpl, i, cnt) :: r.count < WORD && r.duration < WORD
    decreases |smpl| - i
  {
    if i < |smpl| {
      RunsFit(smpl, i + 1, 1);
      RunsFit(smpl, i + 1, cnt + 1);
    }
  }

  /** Reading the written runs expands them. */
  lemma {:induction false} DurationsRead(data: seq<Byte>, runs: seq<Run>, n: nat)
    requires data == U32(|runs|) + RunBytes(runs) && n <= |runs|
    requires forall r | r in runs :: r.count < WORD && r.duration < WORD
    ensures Durations(data, n) == Expand(runs[..n])
  {
    hide U32, RunBytes, Word, Repeat, Expand, Durations;
    if n == 0 {
      NoRuns(data);
      assert runs[..0] == [];
    } else {
      DurationsRead(data, runs, n - 1);
      DurationsStep(data, n - 1);
      RunsAt(runs, n - 1);
      WordFront(U32(|runs|), RunBytes(runs), 8 * (n - 1), 4);
      WordFront(U32(|runs|), RunBytes(runs), 8 * (n - 1) + 4, 4);
      ExpandSnoc(runs[..n - 1], runs[n - 1]);
      assert runs[..n] == runs[..n - 1] + [runs[n - 1]] && runs[n - 1] in runs;
    }
  }

  lemma NoRuns(data: seq<Byte>)
    requires |data| >= 4
    ensures Durations(data, 0) == [] == Expand([])
  {}

  lemma {:induction false} ExpandSnoc(runs: seq<Run>, r: Run)
    ensures Expand(runs + [r]) == Expand(runs) + Repeat(r.duration, r.count)
  {
    hide Repeat;
    if runs == [] {
      assert [] + [r] == [r] && [r][1..] == [];
      assert Expand([r]) == Repeat(r.duration, r.count) + Expand([]);
      NothingBehind(Repeat(r.duration, r.count));
    } else {
      assert (runs + [r])[1..] == runs[1..] + [r];
      ExpandSnoc(runs[1..], r);
      Assoc(Repeat(runs[0].duration, runs[0].count), Expand(runs[1..]), Repeat(r.duration, r.count));
    }
  }

  /** Reading the written stts box restores every duration, with the timestamps as their
      sums in 32 bits. */
  method SttsRoundTrip(data: seq<Byte>, ghost smpl: seq<Sample>) returns (timestamp: seq<nat>, duration: seq<nat>)
    requires Fits(smpl) && data == Contents(Stts(smpl))
    ensures duration == DurationsOf(smpl) && Stamped(timestamp, duration)
  {
    hide RunBytes, U32, Word, FullBox, Durations, Stamped, Fits, Runs, Expand, Repeat, DurationsOf;
    ghost var runs := Runs(smpl, 0, 1);
    FullBoxContents(STTS, 0, U32(|runs|) + RunBytes(runs));
    CountRead(|runs|, RunBytes(runs));
    RunsCount(smpl);
    RunsFit(smpl, 0, 1);
    timestamp, duration := ReadTimes(data);
    DurationsRead(data, runs, |runs|);
    assert runs[..|runs|] == runs;
    ExpandAll(smpl);
  }

  lemma CountRead(n: nat, rest: seq<Byte>)
    ensures Word(U32(n) + rest, 0) == n % WORD
  {
    hide U32;
    WordBehind([], n, rest, 0);
    assert [] + U32(n) + rest == U32(n) + rest;
  }

  lemma RunsCount(smpl: seq<Sample>)
    requires Fits(smpl)
    ensures |Runs(smpl, 0, 1)| % WORD == |Runs(smpl, 0, 1)|
  {
    hide Runs;
    assert |Runs(smpl, 0, 1)| < WORD;
  }

  lemma ExpandAll(smpl: seq<Sample>)
    ensures Expand(Runs(smpl, 0, 1)) == DurationsOf(smpl)
  {
    hide Repeat, Runs, DurationsOf, Expand;
    ExpandRuns(smpl, 0, 1);
    if smpl != [] {
      RepeatNone(smpl[0].duration, DurationsOf(smpl));
      assert DurationsOf(smpl)[0..] == DurationsOf(smpl);
    } else {
      assert DurationsOf(smpl) == [];
    }
  }

  // ---------------------------------------------------------------- whole tracks

  /** With one sample in each chunk, samples and chunks are the same. */
  lemma {:induction false} OnePerChunk(n: nat)
    ensures |ChunkTable([Group(1, 1)], n)| == n && forall i | 0 <= i < n :: ChunkTable([Group(1, 1)], n)[i] == i
  {
    if n > 0 {
      OnePerChunk(n - 1);
    }
  }

  method ReadStsz(data: seq<Byte>, ghost smpl: seq<Sample>) returns (sizes: seq<nat>)
    requires Fits(smpl) && data == Contents(Stsz(smpl))
    ensures |sizes| == |smpl| && forall i | 0 <= i < |smpl| :: sizes[i] == smpl[i].size
  {
    hide U32, Word, FullBox, Sizes;
    FullBoxContents(STSZ, 0, U32(0) + U32(|smpl|) + Sizes(smpl));
    ghost var n := U32(|smpl|);
    Assoc(U32(0), n, Sizes(smpl));
    CountRead(0, n + Sizes(smpl));
    WordBehind(U32(0), |smpl|, Sizes(smpl), 4);
    forall i | 0 <= i < |smpl| ensures Word(data, 8 + 4 * i) == smpl[i].size {
      WordFront(U32(0) + n, Sizes(smpl), 4 * i, 8);
      SizesAt(smpl, i);
    }
    sizes := ReadSizes(data);
  }

  method ReadStsc(data: seq<Byte>) returns (stsc: seq<Group>)
    requires data == Contents(Stsc())
    ensures stsc == [Group(1, 1)]
  {
    hide Word, U32;
    FullBoxContents(STSC, 0, U32(1) + U32(1) + U32(1) + U32(1));
    FourOnes();
    stsc := ReadGroups(data);
  }

  lemma FourOnes()
    ensures var d := U32(1) + U32(1) + U32(1) + U32(1);
            |d| == 16 && Word(d, 0) == 1 && Word(d, 4) == 1 && Word(d, 8) == 1
  {
    hide U32, Word;
    var o := U32(1);
    CountRead(1, o + (o + o));
    WordBehind(o, 1, o + o, 4);
    WordBehind(o + o, 1, o, 8);
    Assoc(o + o, o, o);
    Assoc(o, o, o + o);
  }

  /** The width of the offsets is decided by the last one alone; with offsets in order all
      are read back. */
  method ReadChunkOffsets(data: seq<Byte>, wide: bool, ghost smpl: seq<Sample>, ghost end: nat)
    returns (offsets: seq<nat>)
    requires Fits(smpl) && InOrder(smpl, end) && data == Contents(ChunkOffsets(smpl)) && wide == Wide(smpl)
    ensures |offsets| == |smpl| && forall i | 0 <= i < |smpl| :: offsets[i] == smpl[i].offset
  {
    hide U32, Word, FullBox, Offsets, WideOffsets;
    if wide {
      FullBoxContents(CO64, 0, U32(|smpl|) + WideOffsets(smpl));
      CountRead(|smpl|, WideOffsets(smpl));
      forall i | 0 <= i < |smpl|
        ensures Word(data, 4 + 8 * i) * WORD + Word(data, 8 + 8 * i) == smpl[i].offset {
        WordFront(U32(|smpl|), WideOffsets(smpl), 8 * i, 4);
        WordFront(U32(|smpl|), WideOffsets(smpl), 8 * i + 4, 4);
        WideOffsetsAt(smpl, i);
        WideSize(smpl[i].offset);
      }
    } else {
      FullBoxContents(STCO, 0, U32(|smpl|) + Offsets(smpl));
      CountRead(|smpl|, Offsets(smpl));
      forall i | 0 <= i < |smpl| ensures Word(data, 4 + 4 * i) == smpl[i].offset {
        WordFront(U32(|smpl|), Offsets(smpl), 4 * i, 4);
        OffsetsAt(smpl, i);
        assert smpl[i].offset <= smpl[|smpl| - 1].offset;
      }
    }
    offsets := ReadOffsets(data, wide);
  }

  /** The demuxer computes, from the tables the muxer writes for a track, the place, size,
      time and duration of each of its samples. */
  method FrameRoundTrip(found: Found, i: nat, ghost smpl: seq<Sample>, ghost end: nat) returns (frame: Frame)
    requires Fits(smpl) && i < |smpl| && InOrder(smpl, end)
    requires found == WithTables(found, smpl)
    ensures frame == Frame(smpl[i].offset, smpl[i].size, SumOf(DurationsOf(smpl), 0, i) % WORD, smpl[i].duration)
  {
    hide ChunkTable, Fits, InOrder, Stts, Stsc, Stsz, ChunkOffsets, Wide, Contents;
    var sizes := ReadStsz(found.stsz.value, smpl);
    var offsets := ReadChunkOffsets(found.offsets.value, found.wide, smpl, end);
    var stsc := ReadStsc(found.stsc.value);
    var timestamp, duration := SttsRoundTrip(found.stts.value, smpl);
    OnePerChunk(|smpl|);
    var tables := Tables(stsc, offsets, sizes, timestamp, duration);
    ghost var table := ChunkTable(tables.stsc, |tables.chunkOffset|);
    assert |table| == |smpl| && forall s | 0 <= s < |smpl| :: table[s] == s;
    frame := FrameOffset(tables, i);
    ghost var first :| 0 <= first <= i && FirstOfChunk(table, i, first)
      && frame == Frame(offsets[table[i]] + SumOf(sizes, first, i), sizes[i], timestamp[i], duration[i]);
    assert table[first] == table[i];
  }

  // ---------------------------------------------------------------- what fits its fields

  /** index_bytes, from the puts. */
  function IndexLimit(configs: seq<Config>, puts: seq<Put>, comment: Option<seq<Byte>>): nat {
    256 + (if comment.Some? then 128 + |comment.value| else 0) + TrackLimit(configs, puts, |configs|)
  }

  function TrackLimit(configs: seq<Config>, puts: seq<Put>, n: nat): nat
    requires n <= |configs|
  {
    if n == 0 then 0
    else
      var c := configs[n - 1];
      TrackLimit(configs, puts, n - 1) + 512 + 32 * |Samples(puts, n - 1)| + |c.vsps| + |c.vpps|
  }

  lemma {:induction false} TrackLimitIs(tracks: seq<Track>, configs: seq<Config>, puts: seq<Put>)
    requires AllWritable(tracks) && |tracks| <= |configs|
    requires forall t | 0 <= t < |tracks| :: tracks[t].config == configs[t] && |tracks[t].smpl| == |Samples(puts, t)|
    ensures TrackBytes(IndexOf(tracks)) == TrackLimit(configs, puts, |tracks|)
  {
    hide Samples, Writable;
    if tracks != [] {
      var n := |tracks| - 1;
      TrackLimitIs(tracks[..n], configs, puts);
      assert IndexOf(tracks)[..n] == IndexOf(tracks[..n]);
      SampleBytes(|tracks[n].smpl|);
    }
  }

  /** A signed 64-bit position for the end of the file, 32 bits for each sample's size, each
      duration and the index. */
  ghost predicate FieldsFit(sequential: bool, configs: seq<Config>, puts: seq<Put>, comment: Option<seq<Byte>>) {
    && 40 + Bytes(puts) + IndexLimit(configs, puts, comment) < FILE_LIMIT && SizesFit(sequential, puts)
    && (forall p | p in puts :: p.duration < WORD) && (forall c | c in configs :: c.info.defaultDuration < WORD)
    && IndexLimit(configs, puts, comment) < WORD
  }

  /** The sum of the lengths of the first n samples. */
  function Time(starts: seq<Put>, info: Info, n: nat): nat
    requires n <= |starts|
  {
    if n == 0 then 0 else Time(starts, info, n - 1) + Length(starts[n - 1], info)
  }

  lemma {:induction false} TimeIs(smpl: seq<Sample>, starts: seq<Put>, info: Info, n: nat)
    requires Timed(smpl, starts, info) && n <= |smpl|
    ensures SumOf(DurationsOf(smpl), 0, n) == Time(starts, info, n)
  {
    if n > 0 {
      TimeIs(smpl, starts, info, n - 1);
    }
  }

  lemma {:induction false} StartsAre(puts: seq<Put>, t: nat)
    ensures forall p | p in Starts(puts, t) :: p in puts
  {
    if puts != [] {
      StartsAre(puts[..|puts| - 1], t);
    }
  }

  lemma LimitSample(configs: seq<Config>, puts: seq<Put>, t: nat, n: nat)
    requires t < n <= |configs|
    ensures 32 * |Samples(puts, t)| <= TrackLimit(configs, puts, n)
  {
    hide Samples;
  }

  /** Every field of a track's table is wide enough. */
  lemma TrackFits(sequential: bool, configs: seq<Config>, puts: seq<Put>, comment: Option<seq<Byte>>, tr: Track, t: nat,
                  end: nat)
    requires FieldsFit(sequential, configs, puts, comment) && t < |configs| && tr.config == configs[t]
    requires Timed(tr.smpl, Starts(puts, t), tr.config.info)
    requires InOrder(tr.smpl, end) && end < WORD * WORD
    requires forall i | 0 <= i < |tr.smpl| :: tr.smpl[i].size ==
               if sequential then |Whole(Samples(puts, t), Lead(puts, t), i)| else |Samples(puts, t)[i]|
    ensures Fits(tr.smpl)
  {
    hide Samples, Lead, Starts, TrackLimit, Whole;
    StartsAre(puts, t);
    LimitSample(configs, puts, t, |configs|);
    assert configs[t] in configs;
    forall i | 0 <= i < |tr.smpl| ensures tr.smpl[i].size < WORD && tr.smpl[i].duration < WORD {
      assert Starts(puts, t)[i] in Starts(puts, t);
      assert i < |Samples(puts, t)|;
      assert if sequential then |Whole(Samples(puts, t), Lead(puts, t), i)| + 8 < WORD - 1
             else |Samples(puts, t)[i]| < WORD;
    }
  }

  // ---------------------------------------------------------------- which files can be read

  /** The demuxer comes through the track's sample entry. */
  predicate ConfigLegible(c: Config)
    requires Writable(c)
  {
    Legible(Indexed(c.info, [], c.vsps, c.vpps))
  }

  predicate AllReadable(configs: seq<Config>, puts: seq<Put>)
    requires Describable(configs, puts)
  {
    forall t | 0 <= t < |configs| && Samples(puts, t) != [] :: ConfigLegible(configs[t])
  }

  lemma LegibleIs(tracks: seq<Track>, configs: seq<Config>, puts: seq<Put>)
    requires AllWritable(tracks) && AllTimed(tracks, puts) && Describable(configs, puts) && |tracks| == |configs|
    requires forall t | 0 <= t < |tracks| :: tracks[t].config == configs[t]
    ensures AllLegible(IndexOf(tracks)) <==> AllReadable(configs, puts)
  {
    hide Writable, Samples, Starts, Legible, Encodable, Describable;
    var x := IndexOf(tracks);
    forall t | 0 <= t < |tracks| && tracks[t].smpl != []
      ensures Samples(puts, t) != [] && x[t] in x && Encodable(x[t]) && Writable(configs[t])
      ensures Legible(x[t]) <==> ConfigLegible(configs[t]) {
      SameLegible(x[t], configs[t]);
    }
    assert forall t | 0 <= t < |tracks| :: Timed(tracks[t].smpl, Starts(puts, t), tracks[t].config.info);
  }

  lemma SameLegible(t: Indexed, c: Config)
    requires Encodable(t) && Writable(c) && t.info == c.info && t.vsps == c.vsps && t.vpps == c.vpps
    ensures Legible(t) <==> ConfigLegible(c)
  {
    hide Bounded, EsLength, AvcEnd;
  }

  lemma IndexFits(tracks: seq<Track>, configs: seq<Config>, puts: seq<Put>, comment: Option<seq<Byte>>)
    requires AllWritable(tracks) && AllTimed(tracks, puts) && |tracks| == |configs|
    requires forall t | 0 <= t < |tracks| :: tracks[t].config == configs[t]
    requires IndexLimit(configs, puts, comment) < WORD
    ensures |Moov(IndexOf(tracks), comment)| < IndexLimit(configs, puts, comment)
    ensures Sized(Moov(IndexOf(tracks), comment)) && forall x | x in IndexOf(tracks) :: |x.smpl| < WORD
  {
    hide Samples, Starts, Writable, TrackBytes, TrackLimit, Moov, Children, Sized, Encodable;
    TrackLimitIs(tracks, configs, puts);
    MoovFits(IndexOf(tracks), comment);
    MoovChildren(IndexOf(tracks), comment);
    forall t | 0 <= t < |tracks| ensures |tracks[t].smpl| < WORD {
      assert Timed(tracks[t].smpl, Starts(puts, t), tracks[t].config.info);
      LimitSample(configs, puts, t, |configs|);
    }
  }

  /** The boxes in front of the index. */
  lemma FrontOf(sequential: bool, file: seq<Byte>, puts: seq<Put>, index: seq<Byte>, bodies: seq<seq<Byte>>)
    returns (front: seq<seq<Byte>>)
    requires |index| < WORD && Sized(index)
    requires 40 + Bytes(puts) < FILE_LIMIT && SizesFit(sequential, puts)
    requires |index| <= |file| <= 40 + Bytes(puts) + |index|
    requires if sequential then file == FTYP + Mdats(bodies) + index && BodiesFit(bodies, puts)
             else DirectFile(file, |file| - |index|, index)
    ensures file == Cat(front) + index && forall b | b in front :: Skipped(b)
    ensures Children(file) == front + [index] && front != [] && front[0] == FTYP
  {
    hide SizesFit, Children, Sized, Mdats, Bytes, Skipped, Cat, MdatList;
    if sequential {
      front := [FTYP] + MdatList(bodies);
      SeqMoov(bodies, index);
    } else {
      front := DirectFront(file, |file| - |index|);
      DirectMoov(file, |file| - |index|, index);
    }
  }

  /** The file says what its tracks are. */
  lemma FileSays(file: seq<Byte>, front: seq<seq<Byte>>, tracks: seq<Indexed>, comment: Option<seq<Byte>>)
    requires Indexable(tracks) && |Moov(tracks, comment)| < WORD && forall t | t in tracks :: |t.smpl| < WORD
    requires (forall b | b in front :: Skipped(b)) && front != [] && front[0] == FTYP
    requires Children(file) == front + [Moov(tracks, comment)]
    ensures SaysFile(file, tracks, comment)
  {
    hide Encodable, Moov, Children, Skipped, SaysMovie, Words, Is, Named;
    var boxes, n := Children(file), |front|;
    MovieSays(tracks, comment);
    MoovIs(tracks, comment);
    FtypWords();
    forall j | 0 <= j < n ensures !Is(boxes[j], 0x6d6f_6f76) {
      assert boxes[j] in front;
      SkippedKind(boxes[j]);
    }
    NamedOne(boxes, n, 0x6d6f_6f76);
  }

  lemma SkippedKind(b: seq<Byte>)
    requires Skipped(b)
    ensures !Is(b, 0x6d6f_6f76)
  {}

  lemma FtypWords()
    ensures Words(FTYP) == [24, 0x6674_7970, 0x6d70_3432, 0, 0x6d70_3432, 0x6973_6f6d]
  {
    hide Words;
    assert FTYP == [0, 0, 0, 24] + [0x66, 0x74, 0x79, 0x70] + [0x6d, 0x70, 0x34, 0x32] + [0, 0, 0, 0]
      + [0x6d, 0x70, 0x34, 0x32] + [0x69, 0x73, 0x6f, 0x6d];
    WordsJoin([0, 0, 0, 24], [0x66, 0x74, 0x79, 0x70]);
    WordsJoin([0, 0, 0, 24] + [0x66, 0x74, 0x79, 0x70], [0x6d, 0x70, 0x34, 0x32]);
    WordsJoin([0, 0, 0, 24] + [0x66, 0x74, 0x79, 0x70] + [0x6d, 0x70, 0x34, 0x32], [0, 0, 0, 0]);
    WordsJoin([0, 0, 0, 24] + [0x66, 0x74, 0x79, 0x70] + [0x6d, 0x70, 0x34, 0x32] + [0, 0, 0, 0],
              [0x6d, 0x70, 0x34, 0x32]);
    WordsJoin([0, 0, 0, 24] + [0x66, 0x74, 0x79, 0x70] + [0x6d, 0x70, 0x34, 0x32] + [0, 0, 0, 0]
                + [0x6d, 0x70, 0x34, 0x32], [0x69, 0x73, 0x6f, 0x6d]);
    OneWord([0, 0, 0, 24]);
    OneWord([0x66, 0x74, 0x79, 0x70]);
    OneWord([0x6d, 0x70, 0x34, 0x32]);
    OneWord([0, 0, 0, 0]);
    OneWord([0x69, 0x73, 0x6f, 0x6d]);
  }

  lemma OneWord(s: seq<Byte>)
    requires |s| == 4
    ensures Words(s) == [Value32(s)]
  {
    assert s[..4] == s && s[4..] == [];
  }

  /** A track's number among the tracks in the index. */
  lemma {:induction false} RankWritten(tracks: seq<Indexed>, t: nat)
    requires t <= |tracks|
    ensures Rank(tracks, t) == |InIndex(tracks[..t])|
  {
    if t > 0 {
      RankWritten(tracks, t - 1);
      assert tracks[..t][..t - 1] == tracks[..t - 1];
    }
  }

  /** A file written and opened again: its index says what the tracks are, and all tables of all
      tracks with samples are found if and only if the sample entries of all of them can be read. */
  method WriteThenOpen(sequential: bool, configs: seq<Config>, puts: seq<Put>, comment: Option<seq<Byte>>)
    returns (file: seq<Byte>, tracks: seq<Track>, found: Option<seq<Found>>)
    requires (forall p | p in puts :: p.track < |configs|) && Describable(configs, puts)
    requires FieldsFit(sequential, configs, puts, comment)
    ensures |tracks| == |configs| && (forall t | 0 <= t < |tracks| :: tracks[t].config == configs[t])
    ensures AllWritable(tracks) && AllTimed(tracks, puts)
    ensures |file| <= 40 + Bytes(puts) + |Moov(IndexOf(tracks), comment)|
    ensures |file| >= |Moov(IndexOf(tracks), comment)|
    ensures AllInOrder(tracks, |file| - |Moov(IndexOf(tracks), comment)|)
    ensures sequential ==> SeqFinished(file, tracks, puts)
    ensures !sequential && Adjacent(puts) ==> DirectFinished(file, tracks, puts)
    ensures SaysFile(file, IndexOf(tracks), comment)
    ensures found == Opened(file)
    ensures var all := FoundList(IndexOf(tracks));
            if all == [] then found == None else found == Some(all) <==> AllReadable(configs, puts)
  {
    hide FieldsFit, AllInOrder, Adjacent, SeqFinished, DirectFinished, Disjoint, DirectFile, BodiesFit, Mdats, Bytes;
    hide AllTimed, AllWritable, IndexOf, Moov, Describable, AllReadable, AllLegible, Opened, FoundList, IndexLimit;
    hide SizesFit, Cat, Skipped, Indexable, Sized, SaysFile, Children;
    ghost var bodies;
    file, tracks, bodies := WriteFile(sequential, configs, puts, comment);
    ghost var x := IndexOf(tracks);
    EndFits(sequential, configs, puts, comment, |file| - |Moov(x, comment)|);
    IndexFits(tracks, configs, puts, comment);
    ghost var front := FrontOf(sequential, file, puts, Moov(x, comment), bodies);
    LegibleIs(tracks, configs, puts);
    FileSays(file, front, x, comment);
    if FoundList(x) == [] {
      NoneIllegible(x);
      FileOpens(front, x, comment);
    } else {
      OpenedIff(front, x, comment);
    }
    found := Open(file);
  }

  lemma OrderOfTrack(tracks: seq<Track>, end: nat, t: nat)
    requires AllInOrder(tracks, end) && t < |tracks|
    ensures InOrder(tracks[t].smpl, end)
  {}

  lemma SizesOf(sequential: bool, file: seq<Byte>, tracks: seq<Track>, puts: seq<Put>, t: nat)
    requires t < |tracks|
    requires if sequential then SeqFinished(file, tracks, puts) else DirectFinished(file, tracks, puts)
    ensures |tracks[t].smpl| == |Samples(puts, t)|
    ensures forall i | 0 <= i < |tracks[t].smpl| ::
              var d := if sequential then Whole(Samples(puts, t), Lead(puts, t), i) else Samples(puts, t)[i];
              Stored(file, tracks[t].smpl[i], d) && tracks[t].smpl[i].size == |d|
  {
    hide Samples, Lead, Whole;
  }

  /** What is put into a file, in any interleaving of tracks, the demuxer reads back, as far as
      it can read the sample entries of the tracks: it finds for every sample its bytes, its
      time and its duration, and a reader of the list of random access points whether it is one.
      In sequential mode the bytes are the sample's, behind the continuations that came too early
      for the first one; in the other mode they are the sample's as long as no continuation is
      written behind bytes of another track. */
  method SampleRoundTrip(sequential: bool, configs: seq<Config>, puts: seq<Put>, comment: Option<seq<Byte>>,
                         t: nat, i: nat)
    returns (data: seq<Byte>, timestamp: nat, duration: nat, sync: bool, dsi: seq<Byte>)
    requires (forall p | p in puts :: p.track < |configs|) && Describable(configs, puts)
    requires FieldsFit(sequential, configs, puts, comment) && t < |configs| && i < |Samples(puts, t)|
    requires sequential || Adjacent(puts)
    requires AllReadable(configs, puts)
    ensures data == if sequential then Whole(Samples(puts, t), Lead(puts, t), i) else Samples(puts, t)[i]
    ensures data == Samples(puts, t)[i] <==> !sequential || i > 0 || Lead(puts, t) == []
    ensures duration == Length(Starts(puts, t)[i], configs[t].info)
    ensures Starts(puts, t)[i].duration > 0 ==> duration == Starts(puts, t)[i].duration
    ensures timestamp == Time(Starts(puts, t), configs[t].info, i) % WORD
    ensures sync <==> Starts(puts, t)[i].kind == RandomAccess
    ensures Writable(configs[t]) && dsi == ConfigRead(Indexed(configs[t].info, [], configs[t].vsps, configs[t].vpps))
  {
    hide Samples, Lead, Starts, Adjacent, Fits, InOrder, AllInOrder, Moov, Stored, AllReadable, Opened, FoundList;
    hide FieldsFit, SeqFinished, DirectFinished, Writable, Time, SumOf, Rank, Timed, FoundOf, WithTables, ConfigRead;
    hide Bytes, IndexOf, Wide, Whole, IndexLimit, SizesFit, Encodable, Describable, SaysFile, SyncRead;
    var file, tracks, found := WriteThenOpen(sequential, configs, puts, comment);
    ghost var smpl := tracks[t].smpl;
    ghost var end := |file| - |Moov(IndexOf(tracks), comment)|;
    SizesOf(sequential, file, tracks, puts, t);
    OrderOfTrack(tracks, end, t);
    EndFits(sequential, configs, puts, comment, end);
    TrackFits(sequential, configs, puts, comment, tracks[t], t, end);
    FoundAt(IndexOf(tracks), t);
    var one := found.value[Rank(IndexOf(tracks), t)];
    FoundComplete(IndexOf(tracks)[t], configs[t]);
    var frame := FrameRoundTrip(one, i, smpl, end);
    TimeIs(smpl, Starts(puts, t), configs[t].info, i);
    DurationOf(smpl, Starts(puts, t), configs[t].info, i);
    ghost var d := if sequential then Whole(Samples(puts, t), Lead(puts, t), i) else Samples(puts, t)[i];
    StretchInside(file, smpl[i], d, end);
    data := file[frame.offset..frame.offset + frame.bytes];
    WholeIsSample(Samples(puts, t), Lead(puts, t), i);
    timestamp, duration, dsi := frame.timestamp, frame.duration, one.dsi;
    SyncOf(file, IndexOf(tracks), comment, t, i);
    FlagOf(smpl, Starts(puts, t), configs[t].info, i);
    sync := SyncRead(file, Rank(IndexOf(tracks), t), i);
  }

  lemma SyncOf(file: seq<Byte>, tracks: seq<Indexed>, comment: Option<seq<Byte>>, t: nat, i: nat)
    requires Indexable(tracks) && SaysFile(file, tracks, comment) && t < |tracks| && i < |tracks[t].smpl|
    ensures SyncRead(file, Rank(tracks, t), i) <==> tracks[t].smpl[i].sync
  {
    hide Encodable, Children, SaysMovie, Words, Named, InIndex, SyncRead, Rank;
    RankWritten(tracks, t);
    WrittenAt(tracks, t, Rank(tracks, t));
    var boxes := Children(file);
    SyncFound(file, boxes[|boxes| - 1], tracks, comment, Rank(tracks, t), i);
  }

  lemma FlagOf(smpl: seq<Sample>, starts: seq<Put>, info: Info, i: nat)
    requires Timed(smpl, starts, info) && i < |smpl|
    ensures smpl[i].sync <==> starts[i].kind == RandomAccess
  {}

  lemma FoundComplete(x: Indexed, c: Config)
    requires Encodable(x) && x.info == c.info && x.vsps == c.vsps && x.vpps == c.vpps
    ensures FoundOf(x) == WithTables(FoundOf(x), x.smpl)
    ensures Writable(c) && FoundOf(x).dsi == ConfigRead(Indexed(c.info, [], c.vsps, c.vpps))
  {
    hide Contents, Stts, Stsc, Stsz, ChunkOffsets, Wide, ConfigRead;
    SameConfigRead(x, Indexed(c.info, [], c.vsps, c.vpps));
  }

  lemma SameConfigRead(x: Indexed, y: Indexed)
    requires Encodable(x) && x == y.(smpl := x.smpl)
    ensures Encodable(y) && ConfigRead(x) == ConfigRead(y)
  {
    hide EsLength, AvcEnd, Items;
    if x.info.media == Video && x.info.objectType == AVC {
      assert AvcRecord(x) == AvcRecord(y);
    } else if x.info.media != Video && x.vsps != [] {
      assert DsiBytes(x) == DsiBytes(y);
    }
  }

  lemma NoneIllegible(tracks: seq<Indexed>)
    requires Indexable(tracks) && FoundList(tracks) == []
    ensures AllLegible(tracks)
  {
    hide Encodable, Legible, FoundOf;
    forall t | 0 <= t < |tracks| ensures tracks[t].smpl == [] {
      if tracks[t].smpl != [] {
        FoundAt(tracks, t);
      }
    }
  }

  lemma EndFits(sequential: bool, configs: seq<Config>, puts: seq<Put>, comment: Option<seq<Byte>>, end: nat)
    requires FieldsFit(sequential, configs, puts, comment) && end <= 40 + Bytes(puts)
    ensures end < WORD * WORD && IndexLimit(configs, puts, comment) < WORD
    ensures 40 + Bytes(puts) + IndexLimit(configs, puts, comment) < FILE_LIMIT && SizesFit(sequential, puts)
  {}

  lemma DurationOf(smpl: seq<Sample>, starts: seq<Put>, info: Info, i: nat)
    requires Timed(smpl, starts, info) && i < |smpl|
    ensures smpl[i].duration == Length(starts[i], info)
  {}

  /** A stretch without bytes may begin behind the data. */
  lemma StretchInside(file: seq<Byte>, s: Sample, d: seq<Byte>, end: nat)
    requires Stored(file, s, d) && s.offset <= end <= |file|
    ensures s.offset + s.size <= |file| && file[s.offset..s.offset + s.size] == d
  {}

  lemma WholeIsSample(samples: seq<seq<Byte>>, lead: seq<Byte>, i: nat)
    requires i < |samples|
    ensures Whole(samples, lead, i) == samples[i] <==> i > 0 || lead == []
  {
    if i == 0 && lead != [] {
      assert |lead + samples[0]| > |samples[0]|;
    } else if i == 0 {
      NothingBehind(samples[0]);
    }
  }

  /** A private track with a decoder configuration of 1222 zeros. */
  const LONG := Config(Info(Private, 0, [0, 0, 0], 1, 0, 0, 0, 0), U16(1222) + ZeroBytes(1222), [])

  lemma LongIllegible()
    ensures Writable(LONG) && |LONG.vsps| == 1224 && !ConfigLegible(LONG)
  {
    hide EsLength, U16, ZeroBytes, OdLength;
    var t := Indexed(LONG.info, [], LONG.vsps, LONG.vpps);
    assert LONG.info.language == [0, 0, 0];
    FirstUnbounded();
    assert DsiBytes(t) == 1222;
  }

  lemma OnePut(p: Put, t: nat)
    requires p.kind == Plain && p.data == [1]
    ensures Samples([p], t) == (if t == p.track then [[1]] else []) && Lead([p], t) == [] && |Starts([p], t)| <= 1
    ensures Bytes([p]) == 9
  {
    assert [p][..0] == [];
  }

  lemma OneFits(sequential: bool, p: Put)
    requires p == Put(0, [1], 1, Plain)
    ensures FieldsFit(sequential, [LONG], [p], None) && Describable([LONG], [p]) && !AllReadable([LONG], [p])
  {
    hide Samples, Lead, Bytes, ConfigLegible, Writable, Starts;
    LongIllegible();
    OnePut(p, 0);
    forall t: nat, i: nat | i < |Samples([p], t)|
      ensures |Whole(Samples([p], t), Lead([p], t), i)| == |Samples([p], t)[i]| == 1 {
      OnePut(p, t);
      NothingBehind([1]);
    }
    assert TrackLimit([LONG], [p], 1) == TrackLimit([LONG], [p], 0) + 512 + 32 + 1224;
  }

  /** A file with one sample in one track whose tables the demuxer does not find: its pass ends
      in the descriptors in front of them. */
  method LongConfiguration(sequential: bool) returns (file: seq<Byte>, tracks: seq<Track>, found: Option<seq<Found>>)
    ensures found == Opened(file) && AllWritable(tracks)
    ensures |tracks| == 1 && |tracks[0].smpl| == 1
    ensures FoundList(IndexOf(tracks)) != [] && found != Some(FoundList(IndexOf(tracks)))
  {
    hide FoundList, AllReadable, Opened, AllInOrder, SeqFinished, DirectFinished, Adjacent, FieldsFit, Samples;
    hide Starts, Moov, Bytes, IndexOf, Describable, Rank, Writable, Encodable;
    var puts := [Put(0, [1], 1, Plain)];
    OnePut(puts[0], 0);
    OneFits(sequential, puts[0]);
    file, tracks, found := WriteThenOpen(sequential, [LONG], puts, None);
    assert |tracks[0].smpl| == |Starts(puts, 0)| == 1;
    FoundAt(IndexOf(tracks), 0);
  }
}
