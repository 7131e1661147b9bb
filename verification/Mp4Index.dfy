/** The demuxer's index lookups in stream/minimp4.hpp: the sample tables it reads and the
    file position it computes for a sample (sections 8.6.1.2 and 8.7.3 to 8.7.5 of
    ISO/IEC 14496-12). */
module Mp4Index {
  import opened Seqs
  import opened Bits
  import opened Mp4Bytes
  import opened Mp4Boxes

  // ---------------------------------------------------------------- sample to chunk

  /** An entry of stsc: from this chunk on, counted from 1, so many samples each. */
  datatype Group = Group(firstChunk: nat, perChunk: nat)

  predicate Ascending(stsc: seq<Group>) {
    && stsc != [] && stsc[0].firstChunk == 1
    && forall i, j | 0 <= i < j < |stsc| :: stsc[i].firstChunk < stsc[j].firstChunk
  }

  /** The samples in a chunk, counted from 0: what the last entry says that does not begin
      behind it. */
  function PerChunk(stsc: seq<Group>, chunk: nat): nat {
    if stsc == [] then 0
    else if stsc[|stsc| - 1].firstChunk <= chunk + 1 then stsc[|stsc| - 1].perChunk
    else PerChunk(stsc[..|stsc| - 1], chunk)
  }

  function Repeat(chunk: nat, n: nat): (s: seq<nat>)
    ensures |s| == n && forall i | 0 <= i < n :: s[i] == chunk
  {
    if n == 0 then [] else Repeat(chunk, n - 1) + [chunk]
  }

  /** The expanded table: for every sample the chunk that holds it. */
  function ChunkTable(stsc: seq<Group>, chunks: nat): (table: seq<nat>)
    ensures forall i | 0 <= i < |table| :: table[i] < chunks
    ensures forall i, j | 0 <= i <= j < |table| :: table[i] <= table[j]
  {
    if chunks == 0 then [] else ChunkTable(stsc, chunks - 1) + Repeat(chunks - 1, PerChunk(stsc, chunks - 1))
  }

  lemma {:induction false} TablePrefix(stsc: seq<Group>, a: nat, b: nat)
    requires a <= b
    ensures ChunkTable(stsc, a) <= ChunkTable(stsc, b)
    decreases b - a
  {
    if a < b {
      TablePrefix(stsc, a, b - 1);
    }
  }

  /** The entry for a chunk is the one whose group is under way. */
  lemma {:induction false} PerChunkIs(stsc: seq<Group>, g: nat, chunk: nat)
    requires Ascending(stsc) && g < |stsc| && stsc[g].firstChunk <= chunk + 1
    requires g + 1 < |stsc| ==> chunk + 1 < stsc[g + 1].firstChunk
    ensures PerChunk(stsc, chunk) == stsc[g].perChunk
    decreases |stsc|
  {
    var n := |stsc| - 1;
    if g < n {
      assert stsc[g + 1].firstChunk <= stsc[n].firstChunk;
      PerChunkIs(stsc[..n], g, chunk);
    }
  }

  /** first is the first of the samples that the table assigns to the chunk of sample n. */
  predicate FirstOfChunk(table: seq<nat>, n: nat, first: nat)
    requires n < |table|
  {
    && first <= n && (forall s | first <= s <= n :: table[s] == table[n])
    && (first > 0 ==> table[first - 1] < table[n])
  }

  /** sample_to_chunk. A table of at most one chunk is not consulted. */
  method SampleToChunk(stsc: seq<Group>, chunkCount: nat, nsample: nat) returns (nchunk: int, first: nat)
    requires Ascending(stsc)
    ensures chunkCount <= 1 ==> nchunk == 0 && first == 0
    ensures chunkCount > 1 && nsample >= |ChunkTable(stsc, chunkCount)| ==> nchunk == -1
    ensures chunkCount >= 1 && nsample < |ChunkTable(stsc, chunkCount)| ==>
              && nchunk == ChunkTable(stsc, chunkCount)[nsample]
              && FirstOfChunk(ChunkTable(stsc, chunkCount), nsample, first)
  {
    hide ChunkTable, PerChunk;
    first := 0;
    if chunkCount <= 1 {
      ghost var table := ChunkTable(stsc, chunkCount);
      return 0, 0;
    }
    var chunkGroup, sum := 0, 0;
    TableStart(stsc);
    for nc := 0 to chunkCount
      invariant first == sum == |ChunkTable(stsc, nc)| <= nsample || (nc == 0 && first == sum == 0)
      invariant |ChunkTable(stsc, nc)| <= nsample
      invariant chunkGroup < |stsc|
      invariant if nc == 0 then chunkGroup == 0 else stsc[chunkGroup].firstChunk <= nc
      invariant chunkGroup + 1 < |stsc| ==> nc < stsc[chunkGroup + 1].firstChunk
    {
      if chunkGroup + 1 < |stsc| && nc + 1 == stsc[chunkGroup + 1].firstChunk {
        chunkGroup := chunkGroup + 1;
      }
      PerChunkIs(stsc, chunkGroup, nc);
      TableStep(stsc, nc);
      sum := sum + stsc[chunkGroup].perChunk;
      if nsample < sum {
        TablePrefix(stsc, nc + 1, chunkCount);
        InChunk(stsc, nc, chunkCount, nsample, first);
        return nc, first;
      }
      first := sum;
    }
    return -1, first;
  }

  lemma TableStart(stsc: seq<Group>)
    ensures ChunkTable(stsc, 0) == []
  {}

  lemma TableStep(stsc: seq<Group>, nc: nat)
    ensures ChunkTable(stsc, nc + 1) == ChunkTable(stsc, nc) + Repeat(nc, PerChunk(stsc, nc))
  {}

  lemma InChunk(stsc: seq<Group>, nc: nat, chunkCount: nat, nsample: nat, first: nat)
    requires ChunkTable(stsc, nc + 1) <= ChunkTable(stsc, chunkCount) && first == |ChunkTable(stsc, nc)|
    requires first <= nsample < |ChunkTable(stsc, nc + 1)|
    ensures nsample < |ChunkTable(stsc, chunkCount)| && ChunkTable(stsc, chunkCount)[nsample] == nc
    ensures FirstOfChunk(ChunkTable(stsc, chunkCount), nsample, first)
  {
    TableStep(stsc, nc);
    var t := ChunkTable(stsc, chunkCount);
    assert forall s | first <= s <= nsample :: t[s] == ChunkTable(stsc, nc + 1)[s] == nc;
    if first > 0 {
      assert t[first - 1] == ChunkTable(stsc, nc + 1)[first - 1] == ChunkTable(stsc, nc)[first - 1];
    }
  }

  // ---------------------------------------------------------------- frame offset

  function SumOf(sizes: seq<nat>, from: nat, to: nat): nat
    requires from <= to <= |sizes|
  {
    if from == to then 0 else SumOf(sizes, from, to - 1) + sizes[to - 1]
  }

  /** What the reader keeps of a track. */
  datatype Tables = Tables(stsc: seq<Group>, chunkOffset: seq<nat>, entrySize: seq<nat>,
                           timestamp: seq<nat>, duration: seq<nat>)

  datatype Frame = Frame(offset: nat, bytes: nat, timestamp: nat, duration: nat) | NoFrame

  /** MP4D_frame_offset: the chunk's offset plus the sizes of the samples in front of this one
      in its chunk. */
  method FrameOffset(tr: Tables, nsample: nat) returns (frame: Frame)
    requires Ascending(tr.stsc) && |tr.chunkOffset| >= 1
    requires nsample < |tr.entrySize| == |tr.timestamp| == |tr.duration|
    ensures var table := ChunkTable(tr.stsc, |tr.chunkOffset|);
            && (|tr.chunkOffset| > 1 && nsample >= |table| ==> frame == NoFrame)
            && (nsample < |table| ==>
                  exists first | 0 <= first <= nsample ::
                    FirstOfChunk(table, nsample, first)
                    && frame == Frame(tr.chunkOffset[table[nsample]] + SumOf(tr.entrySize, first, nsample),
                                      tr.entrySize[nsample], tr.timestamp[nsample], tr.duration[nsample]))
  {
    hide ChunkTable;
    var nchunk, ns := SampleToChunk(tr.stsc, |tr.chunkOffset|, nsample);
    if nchunk < 0 {
      return NoFrame;
    }
    ghost var first := ns;
    assert first <= nsample;
    var offset := tr.chunkOffset[nchunk];
    while ns < nsample
      invariant first <= ns <= nsample
      invariant offset == tr.chunkOffset[nchunk] + SumOf(tr.entrySize, first, ns)
    {
      offset := offset + tr.entrySize[ns];
      ns := ns + 1;
    }
    frame := Frame(offset, tr.entrySize[ns], tr.timestamp[ns], tr.duration[ns]);
  }

  // ---------------------------------------------------------------- reading the tables

  /** The contents of stsz, behind version and flags. */
  method ReadSizes(data: seq<Byte>) returns (entrySize: seq<nat>)
    requires |data| >= 8 && (Word(data, 0) == 0 ==> |data| >= 8 + 4 * Word(data, 4))
    ensures |entrySize| == Word(data, 4)
    ensures forall i | 0 <= i < |entrySize| ::
              entrySize[i] == if Word(data, 0) != 0 then Word(data, 0) else Word(data, 8 + 4 * i)
  {
    hide Value32;
    var sampleSize, sampleCount := Word(data, 0), Word(data, 4);
    entrySize := [];
    for k := 0 to sampleCount
      invariant |entrySize| == k
      invariant forall i | 0 <= i < k :: entrySize[i] == if sampleSize != 0 then sampleSize else Word(data, 8 + 4 * i)
    {
      entrySize := entrySize + [if sampleSize != 0 then sampleSize else Word(data, 8 + 4 * k)];
    }
  }

  /** The contents of stco, or of co64 when `wide`. */
  method ReadOffsets(data: seq<Byte>, wide: bool) returns (chunkOffset: seq<nat>)
    requires |data| >= 4 && |data| >= 4 + (if wide then 8 else 4) * Word(data, 0)
    ensures |chunkOffset| == Word(data, 0)
    ensures forall i | 0 <= i < |chunkOffset| ::
              chunkOffset[i] == if wide then Word(data, 4 + 8 * i) * WORD + Word(data, 8 + 8 * i)
                                else Word(data, 4 + 4 * i)
  {
    hide Value32;
    chunkOffset := [];
    for k := 0 to Word(data, 0)
      invariant |chunkOffset| == k
      invariant forall i | 0 <= i < k ::
                  chunkOffset[i] == if wide then Word(data, 4 + 8 * i) * WORD + Word(data, 8 + 8 * i)
                                    else Word(data, 4 + 4 * i)
    {
      var offset := Word(data, 4 + (if wide then 8 else 4) * k);
      if wide {
        offset := offset * WORD + Word(data, 8 + 8 * k);
      }
      chunkOffset := chunkOffset + [offset];
    }
  }

  /** The contents of stsc. */
  method ReadGroups(data: seq<Byte>) returns (stsc: seq<Group>)
    requires |data| >= 4 && |data| >= 4 + 12 * Word(data, 0)
    ensures |stsc| == Word(data, 0)
    ensures forall i | 0 <= i < |stsc| :: stsc[i] == Group(Word(data, 4 + 12 * i), Word(data, 8 + 12 * i))
  {
    hide Value32;
    stsc := [];
    for k := 0 to Word(data, 0)
      invariant |stsc| == k
      invariant forall i | 0 <= i < k :: stsc[i] == Group(Word(data, 4 + 12 * i), Word(data, 8 + 12 * i))
    {
      stsc := stsc + [Group(Word(data, 4 + 12 * k), Word(data, 8 + 12 * k))];
    }
  }

  /** The durations that the first n runs stand for. */
  function Durations(data: seq<Byte>, n: nat): (d: seq<nat>)
    requires 4 + 8 * n <= |data|
  {
    if n == 0 then []
    else Durations(data, n - 1) + Repeat(Word(data, 8 * n), Word(data, 8 * n - 4))
  }

  /** Every timestamp is the sum of the durations in front of it, in 32 bits. */
  ghost predicate Stamped(timestamp: seq<nat>, duration: seq<nat>) {
    |timestamp| == |duration| && forall i | 0 <= i < |timestamp| :: timestamp[i] == SumOf(duration, 0, i) % WORD
  }

  lemma {:induction false} SumPrefix(a: seq<nat>, b: seq<nat>, n: nat)
    requires n <= |a| && n <= |b| && forall k | 0 <= k < n :: a[k] == b[k]
    ensures SumOf(a, 0, n) == SumOf(b, 0, n)
  {
    if n > 0 {
      SumPrefix(a, b, n - 1);
    }
  }

  lemma StampedSnoc(timestamp: seq<nat>, duration: seq<nat>, ts: nat, d: nat)
    requires Stamped(timestamp, duration) && ts == SumOf(duration, 0, |duration|) % WORD
    ensures Stamped(timestamp + [ts], duration + [d])
    ensures (ts + d) % WORD == SumOf(duration + [d], 0, |duration| + 1) % WORD
  {
    hide SumOf;
    var more := duration + [d];
    forall i | 0 <= i <= |duration| ensures SumOf(more, 0, i) == SumOf(duration, 0, i) {
      SumPrefix(more, duration, i);
    }
    SumStep(more, |duration|);
    ModAdd(SumOf(duration, 0, |duration|), d);
  }

  lemma SumStep(a: seq<nat>, n: nat)
    requires n < |a|
    ensures SumOf(a, 0, n + 1) == SumOf(a, 0, n) + a[n]
  {}

  lemma ModAdd(a: nat, d: nat)
    ensures (a % WORD + d) % WORD == (a + d) % WORD
  {}

  /** The contents of stts: one duration and one timestamp for every sample. */
  method ReadTimes(data: seq<Byte>) returns (timestamp: seq<nat>, duration: seq<nat>)
    requires |data| >= 4 && |data| >= 4 + 8 * Word(data, 0)
    ensures duration == Durations(data, Word(data, 0)) && Stamped(timestamp, duration)
  {
    hide Value32, SumOf, Stamped, Durations, Repeat;
    var count := Word(data, 0);
    var ts := 0;
    timestamp, duration := [], [];
    StampedStart(data);
    for i := 0 to count
      invariant duration == Durations(data, i) && Stamped(timestamp, duration)
      invariant ts == SumOf(duration, 0, |duration|) % WORD
    {
      var sc, d := Word(data, 4 + 8 * i), Word(data, 8 + 8 * i);
      ghost var before := duration;
      RepeatStart(before, d);
      for j := 0 to sc
        invariant duration == before + Repeat(d, j) && Stamped(timestamp, duration)
        invariant ts == SumOf(duration, 0, |duration|) % WORD
      {
        StampedSnoc(timestamp, duration, ts, d);
        RepeatStep(before, d, j);
        duration := duration + [d];
        timestamp := timestamp + [ts];
        ts := (ts + d) % WORD;
      }
      DurationsStep(data, i);
    }
  }

  lemma StampedStart(data: seq<Byte>)
    requires |data| >= 4
    ensures Durations(data, 0) == [] && Stamped([], []) && SumOf([], 0, 0) % WORD == 0
  {}

  lemma RepeatStart(before: seq<nat>, d: nat)
    ensures before == before + Repeat(d, 0)
  {}

  lemma RepeatStep(before: seq<nat>, d: nat, j: nat)
    ensures before + Repeat(d, j) + [d] == before + Repeat(d, j + 1)
  {
    Assoc(before, Repeat(d, j), [d]);
  }

  lemma DurationsStep(data: seq<Byte>, i: nat)
    requires 12 + 8 * i <= |data|
    ensures Durations(data, i + 1) == Durations(data, i) + Repeat(Word(data, 8 + 8 * i), Word(data, 4 + 8 * i))
  {
    hide Value32, Repeat;
    assert 8 * (i + 1) == 8 + 8 * i && 8 * (i + 1) - 4 == 4 + 8 * i;
  }
}
