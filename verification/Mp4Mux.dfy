/** The MP4 muxer of stream/minimp4.hpp, without fragmentation: where sample bytes go, what the
    sample descriptors say about them, and the file it leaves. */
module Mp4Mux {
  import opened Wrappers
  import opened Bits
  import opened Mp4Bytes
  import opened Mp4Boxes
  import opened Mp4Samples
  import opened Mp4Direct
  import Mp4IndexWriter

  /** What both modes keep. */
  ghost predicate Common(tracks: seq<Track>, writePos: nat, puts: seq<Put>) {
    && (forall p | p in puts :: p.track < |tracks|)
    && AllTimed(tracks, puts)
    && writePos + Load(tracks) <= 40 + Bytes(puts)
  }

  ghost predicate SeqState(file: seq<Byte>, tracks: seq<Track>, writePos: nat, bodies: seq<seq<Byte>>,
                           puts: seq<Put>) {
    SeqLayout(file, tracks, writePos, bodies) && SeqTracks(file, tracks, puts) && BodiesFit(bodies, puts)
  }

  lemma AddedSeq(file: seq<Byte>, tracks: seq<Track>, writePos: nat, bodies: seq<seq<Byte>>, puts: seq<Put>, c: Config)
    requires SeqState(file, tracks, writePos, bodies, puts)
    requires Samples(puts, |tracks|) == [] && Lead(puts, |tracks|) == []
    ensures SeqState(file, tracks + [Track(c, [], [])], writePos, bodies, puts)
  {
    hide Stored, Whole, Samples, Lead, BodiesFit, Apart, Inside;
  }

  lemma AddedDirect(file: seq<Byte>, tracks: seq<Track>, writePos: nat, puts: seq<Put>, c: Config)
    requires DirectState(file, tracks, writePos, puts) && Samples(puts, |tracks|) == []
    ensures DirectState(file, tracks + [Track(c, [], [])], writePos, puts)
  {
    hide Stored, Samples, Adjacent, Apart, Inside, Touching, Disjoint;
    if Adjacent(puts) {
      AddedTouching(tracks, writePos, puts, c);
    } else {
      AddedOverlap(tracks, c);
    }
  }

  lemma AddedTouching(tracks: seq<Track>, writePos: nat, puts: seq<Put>, c: Config)
    requires Touching(tracks, writePos, puts)
    ensures Touching(tracks + [Track(c, [], [])], writePos, puts)
  {
    hide Tight, EndsAt, Covered;
    forall t | 0 <= t < |tracks| && tracks[t].smpl != [] && Covered(tracks, t)
      ensures Covered(tracks + [Track(c, [], [])], t) {
      AddedCovered(tracks, c, t);
    }
  }

  lemma AddedCovered(tracks: seq<Track>, c: Config, t: nat)
    requires t < |tracks| && tracks[t].smpl != [] && Covered(tracks, t)
    ensures Covered(tracks + [Track(c, [], [])], t)
  {
    hide Covers;
    var more, s := tracks + [Track(c, [], [])], tracks[t].smpl[|tracks[t].smpl| - 1];
    var u, j :| 0 <= u < |tracks| && u != t && 0 <= j < |tracks[u].smpl|
      && Covers(tracks[u].smpl[j], s.offset + s.size);
    assert more[u].smpl[j] == tracks[u].smpl[j];
  }

  lemma AddedOverlap(tracks: seq<Track>, c: Config)
    requires !Disjoint(tracks)
    ensures !Disjoint(tracks + [Track(c, [], [])])
  {
    hide Apart;
    var more := tracks + [Track(c, [], [])];
    if Disjoint(more) {
      forall t, i, u, j | 0 <= t < |tracks| && 0 <= i < |tracks[t].smpl| && 0 <= u < |tracks|
                       && 0 <= j < |tracks[u].smpl| && (t != u || i != j)
        ensures Apart(tracks[t].smpl[i], tracks[u].smpl[j]) {
        assert Apart(more[t].smpl[i], more[u].smpl[j]);
      }
    }
  }

  lemma AddedCommon(tracks: seq<Track>, writePos: nat, puts: seq<Put>, c: Config)
    requires Common(tracks, writePos, puts)
    ensures Common(tracks + [Track(c, [], [])], writePos, puts)
    ensures Samples(puts, |tracks|) == [] && Lead(puts, |tracks|) == []
  {
    hide Starts, Load, Samples, Lead;
    LoadSnoc(tracks, Track(c, [], []));
    Untouched(puts, |tracks|);
  }

  /** What a put in sequential mode does to descriptors and sizes; before it, the track's
      pending sample may have been written. */
  lemma PutCommon(before: seq<Track>, middle: seq<Track>, writePos: nat, puts: seq<Put>, p: Put, s: Sample)
    requires AllTimed(before, puts) && SameConfigs(before, middle) && p.track < |before|
    requires forall q | q in puts :: q.track < |before|
    requires forall u | 0 <= u < |before| && u != p.track :: middle[u] == before[u]
    requires Resized(before[p.track].smpl, middle[p.track].smpl)
    requires s == Descriptor(middle[p.track], |p.data|, writePos, p.duration, p.kind)
    requires writePos + Load(middle) <= 40 + Bytes(puts)
    ensures Common(middle[p.track := Taken(middle[p.track], p, s)], writePos, puts + [p])
  {
    hide AllTimed, Load, Bytes;
    var tr := middle[p.track];
    var after := middle[p.track := Taken(tr, p, s)];
    BytesSnoc(puts, p);
    LoadUpdate(middle, p.track, Taken(tr, p, s));
    assert p.kind != Continuation ==> (tr.smpl + [s])[..|tr.smpl|] == tr.smpl;
    TimedPut(before, after, puts, p, writePos);
  }

  lemma DirectReady(file: seq<Byte>, tracks: seq<Track>, writePos: nat, puts: seq<Put>, p: Put)
    requires DirectState(file, tracks, writePos, puts) && p.track < |tracks|
    ensures tracks[p.track].pending == [] && (Writes(tracks, p) <==> !Refused(puts, p))
  {}

  class Mux {
    const sequential: bool
    var tracks: seq<Track>
    var writePos: nat
    var file: seq<Byte>
    ghost var history: seq<Put>
    ghost var bodies: seq<seq<Byte>>

    ghost predicate Valid()
      reads this
    {
      && Common(tracks, writePos, history)
      && if sequential then SeqState(file, tracks, writePos, bodies, history)
         else DirectState(file, tracks, writePos, history)
    }

    /** MP4E_open. */
    constructor (sequentialMode: bool)
      ensures Valid() && sequential == sequentialMode && tracks == [] && history == [] && bodies == []
      ensures file == FTYP + (if sequentialMode then [] else FTYP[..8])
      ensures writePos == if sequentialMode then |FTYP| else |FTYP| + 16
    {
      sequential := sequentialMode;
      tracks, history, bodies := [], [], [];
      file := FTYP;
      writePos := |FTYP|;
      new;
      if !sequential {
        file := WriteAt(file, writePos, FTYP[..8]);
        writePos := writePos + 16;
      }
    }

    /** MP4E_add_track. */
    method AddTrack(config: Config) returns (ntr: nat)
      requires Valid()
      modifies this
      ensures Valid() && ntr == old(|tracks|) && history == old(history) && file == old(file)
      ensures tracks == old(tracks) + [Track(config, [], [])]
    {
      hide Common, SeqState, DirectState;
      ntr := |tracks|;
      AddedCommon(tracks, writePos, history, config);
      if sequential {
        AddedSeq(file, tracks, writePos, bodies, history, config);
      } else {
        AddedDirect(file, tracks, writePos, history, config);
      }
      tracks := tracks + [Track(config, [], [])];
    }

    /** write_pending_data: the pending sample of track t, in an mdat box of its own. */
    method WritePendingData(t: nat)
      requires sequential && t < |tracks| && SeqLayout(file, tracks, writePos, bodies) && BodiesFit(bodies, history)
      requires Buffered(file, tracks[t], Samples(history, t), Lead(history, t))
      modifies `tracks, `writePos, `file, `bodies
      ensures SeqLayout(file, tracks, writePos, bodies) && BodiesFit(bodies, history) && old(file) <= file
      ensures SameConfigs(old(tracks), tracks) && Resized(old(tracks)[t].smpl, tracks[t].smpl)
      ensures Complete(file, tracks[t], Samples(history, t), Lead(history, t))
      ensures forall u | 0 <= u < |tracks| && u != t :: tracks[u] == old(tracks[u])
      ensures writePos + Load(tracks) == old(writePos) + Load(old(tracks))
    {
      hide Buffered, Complete, Mdat, Mdats, WriteAt, Separate, U32, InOrder, Samples, Lead, BodiesFit, Load;
      BufferedLength(file, tracks[t], Samples(history, t), Lead(history, t));
      var tr := tracks[t];
      if |tr.pending| > 0 && |tr.smpl| > 0 {
        var n := |tr.smpl| - 1;
        ghost var tr' := Written(tr, |file| + 8);
        Settle(file, tr, Samples(history, t), Lead(history, t), tr');
        BodiesFitSnoc(file, tr, t, bodies, history);
        AppendBox(file, tr.pending, bodies);
        SeparateUpdate(tracks, |FTYP|, writePos, t, tr', n, writePos + 8 + |tr.pending|);
        InOrderNew(tr.smpl, writePos, tr'.smpl[n], writePos + 8 + |tr.pending|);
        InOrderLater(tracks, writePos, writePos + 8 + |tr.pending|, t, tr');
        LoadUpdate(tracks, t, tr');
        file := WriteAt(file, writePos, U32(|tr.pending| + 8) + MDAT);
        writePos := writePos + 8;
        tr := tr.(smpl := tr.smpl[n := tr.smpl[n].(size := |tr.pending|, offset := writePos)]);
        file := WriteAt(file, writePos, tr.pending);
        writePos := writePos + |tr.pending|;
        bodies := bodies + [tr.pending];
        tr := tr.(pending := []);
        tracks := tracks[t := tr];
      } else {
        NothingPending(file, tr, Samples(history, t), Lead(history, t));
      }
    }

    /** add_sample_descriptor. */
    method AddSampleDescriptor(t: nat, dataBytes: nat, duration: nat, kind: Kind)
      requires t < |tracks|
      modifies `tracks
      ensures var tr := old(tracks)[t];
              tracks == old(tracks)[t := tr.(smpl := tr.smpl + [Descriptor(tr, dataBytes, writePos, duration, kind)])]
    {
      var tr := tracks[t];
      tracks := tracks[t := tr.(smpl := tr.smpl + [Descriptor(tr, dataBytes, writePos, duration, kind)])];
    }

    /** MP4E_put_sample. The source decides on the mode at each step. */
    method PutSample(trackNum: nat, data: seq<Byte>, duration: nat, kind: Kind) returns (status: Status)
      requires Valid() && trackNum < |tracks|
      modifies this
      ensures Valid() && SameConfigs(old(tracks), tracks)
      ensures history == old(history) + [Put(trackNum, data, duration, kind)] && AllTimed(tracks, history)
      ensures status == NoMemory <==> !sequential && Refused(old(history), Put(trackNum, data, duration, kind))
    {
      if sequential {
        PutPending(trackNum, data, duration, kind);
        status := Ok;
      } else {
        status := PutDirect(trackNum, data, duration, kind);
      }
    }

    method PutPending(t: nat, data: seq<Byte>, duration: nat, kind: Kind)
      requires Valid() && sequential && t < |tracks|
      modifies this
      ensures Valid() && SameConfigs(old(tracks), tracks)
      ensures history == old(history) + [Put(t, data, duration, kind)]
    {
      hide Buffered, Complete, Samples, Lead, Separate, InOrder, AllTimed, Load, Bytes, BodiesFit, Resized;
      ghost var p := Put(t, data, duration, kind);
      ResizedSame(tracks[t].smpl);
      if kind != Continuation {
        WritePendingData(t);
      }
      ghost var middle, tr, s := tracks, tracks[t], Descriptor(tracks[t], |data|, writePos, duration, kind);
      SeqPut(file, tr, history, p, s);
      SettledPut(tr, file, Samples(history, t), Lead(history, t), p, s, middle, writePos, t);
      InOrderNew(tr.smpl, writePos, s, writePos);
      InOrderLater(middle, writePos, writePos, t, Taken(tr, p, s));
      if kind != Continuation {
        AddSampleDescriptor(t, |data|, duration, kind);
      }
      tracks := tracks[t := tracks[t].(pending := tracks[t].pending + data)];
      assert tracks == middle[t := Taken(tr, p, s)];
      PutCommon(old(tracks), middle, writePos, history, p, s);
      OtherTracks(old(file), file, old(tracks), tracks, history, p);
      BodiesFitLater(bodies, history, p);
      history := history + [p];
    }

    method PutDirect(t: nat, data: seq<Byte>, duration: nat, kind: Kind) returns (status: Status)
      requires Valid() && !sequential && t < |tracks|
      modifies this
      ensures Valid() && SameConfigs(old(tracks), tracks)
      ensures history == old(history) + [Put(t, data, duration, kind)]
      ensures status == NoMemory <==> Refused(old(history), Put(t, data, duration, kind))
    {
      hide Samples, Refused, DirectState, DirectTracksAfter, WriteAt, AllTimed, Load, Bytes, Writes;
      ghost var p := Put(t, data, duration, kind);
      DirectReady(file, tracks, writePos, history, p);
      BytesSnoc(history, p);
      DirectTimed(tracks, writePos, history, p);
      DirectLoad(tracks, writePos, p);
      DirectStep(file, tracks, writePos, history, p);
      var ok := Describe(t, |data|, duration, kind, p);
      history := history + [p];
      if !ok {
        return NoMemory;
      }
      file := WriteAt(file, writePos, data);
      writePos := writePos + |data|;
      status := Ok;
    }

    /** The descriptor of a put in non-sequential mode: a new one, or the last one longer. */
    method Describe(t: nat, dataBytes: nat, duration: nat, kind: Kind, ghost p: Put) returns (ok: bool)
      requires t < |tracks| && p.track == t && |p.data| == dataBytes && p.duration == duration && p.kind == kind
      modifies `tracks
      ensures ok == Writes(old(tracks), p) && tracks == DirectTracksAfter(old(tracks), writePos, p)
      ensures !ok ==> tracks == old(tracks)
    {
      if kind != Continuation {
        AddSampleDescriptor(t, dataBytes, duration, kind);
      } else {
        if |tracks[t].smpl| == 0 {
          return false;
        }
        var smpl, n := tracks[t].smpl, |tracks[t].smpl| - 1;
        tracks := tracks[t := tracks[t].(smpl := smpl[n := smpl[n].(size := smpl[n].size + dataBytes)])];
      }
      ok := true;
    }

    /** mp4e_flush_index: what is pending, the patched header of the one mdat box, and the index
        of the tracks as they are then. */
    method FlushIndex(comment: Option<seq<Byte>>)
      requires Valid() && AllWritable(tracks)
      modifies this
      ensures history == old(history) && SameConfigs(old(tracks), tracks) && AllWritable(tracks)
      ensures AllTimed(tracks, history)
      ensures var index := Moov(IndexOf(tracks), comment);
              && |index| <= |file| <= 40 + Bytes(history) + |index| && AllInOrder(tracks, |file| - |index|)
              && (sequential ==> file == FTYP + Mdats(bodies) + index && SeqFinished(file, tracks, history))
              && (!sequential ==> DirectFile(file, |file| - |index|, index))
      ensures sequential ==> Disjoint(tracks) && BodiesFit(bodies, history)
      ensures !sequential ==> (Disjoint(tracks) <==> Adjacent(history))
      ensures !sequential && Adjacent(history) ==> DirectFinished(file, tracks, history)
    {
      hide SeqLayout, Samples, Lead, Writable, Adjacent, DirectState, Moov, Load, Bytes, Complete;
      hide SeqFinished, DirectFinished, Disjoint, DirectFile, AllTimed, AllInOrder, BodiesFit, Mdats;
      if sequential {
        FlushPending();
      }
      StillWritable(old(tracks), tracks, history);
      var index := Mp4IndexWriter.BuildIndex(IndexOf(tracks), comment);
      MoovThere(IndexOf(tracks), comment);
      Finish(index);
    }

    /** The header of the mdat box, and the index behind the data. */
    method Finish(index: seq<Byte>)
      requires index != []
      requires sequential ==>
                 SeqLayout(file, tracks, writePos, bodies)
                 && forall t | 0 <= t < |tracks| :: Complete(file, tracks[t], Samples(history, t), Lead(history, t))
      requires !sequential ==> DirectState(file, tracks, writePos, history)
      modifies `file, `writePos
      ensures |file| == old(writePos) + |index| && AllInOrder(tracks, old(writePos))
      ensures sequential ==> file == FTYP + Mdats(bodies) + index && SeqFinished(file, tracks, history)
      ensures !sequential ==> DirectFile(file, old(writePos), index)
      ensures sequential ==> Disjoint(tracks)
      ensures !sequential ==> (Disjoint(tracks) <==> Adjacent(history))
      ensures !sequential && Adjacent(history) ==> DirectFinished(file, tracks, history)
    {
      hide AllInOrder, Samples, Lead, Adjacent, DirectTracks, WriteAt, Mdats, Separate, Complete;
      hide SeqFinished, DirectFinished, Disjoint;
      if !sequential {
        var header := DirectHeader(writePos - |FTYP|);
        DirectFinish(file, tracks, writePos, history, header, index);
        file := WriteAt(file, |FTYP|, header);
      } else {
        SeqFinish(file, tracks, writePos, history, index);
        Append(file, index);
      }
      file := WriteAt(file, writePos, index);
      writePos := writePos + |index|;
    }

    /** The loop over the tracks that writes what is still pending. */
    method FlushPending()
      requires sequential && Valid()
      modifies `tracks, `writePos, `file, `bodies
      ensures SeqLayout(file, tracks, writePos, bodies) && BodiesFit(bodies, history)
      ensures SameConfigs(old(tracks), tracks) && AllTimed(tracks, history) && writePos <= 40 + Bytes(history)
      ensures forall t | 0 <= t < |tracks| :: Complete(file, tracks[t], Samples(history, t), Lead(history, t))
    {
      hide Buffered, Complete, Samples, Lead, Separate, Mdats, AllTimed, Starts, Load, Bytes, Resized, BodiesFit;
      hide InOrder;
      for t := 0 to |tracks|
        invariant SeqLayout(file, tracks, writePos, bodies) && BodiesFit(bodies, history)
        invariant SameConfigs(old(tracks), tracks) && AllTimed(tracks, history)
        invariant writePos + Load(tracks) <= 40 + Bytes(history)
        invariant forall u | 0 <= u < t :: Complete(file, tracks[u], Samples(history, u), Lead(history, u))
        invariant forall u | t <= u < |tracks| :: Buffered(file, tracks[u], Samples(history, u), Lead(history, u))
      {
        ghost var before, tracks0 := file, tracks;
        WritePendingData(t);
        ResizedTimed(tracks0, tracks, history, t);
        forall u | 0 <= u < |tracks| && u != t
          ensures Buffered(before, tracks[u], Samples(history, u), Lead(history, u))
                  ==> Buffered(file, tracks[u], Samples(history, u), Lead(history, u))
          ensures Complete(before, tracks[u], Samples(history, u), Lead(history, u))
                  ==> Complete(file, tracks[u], Samples(history, u), Lead(history, u)) {
          BufferedKeeps(before, file[|before|..], tracks[u], Samples(history, u), Lead(history, u));
          assert before + file[|before|..] == file;
        }
      }
    }
  }

  lemma ResizedTimed(before: seq<Track>, after: seq<Track>, puts: seq<Put>, t: nat)
    requires AllTimed(before, puts) && SameConfigs(before, after) && t < |before|
    requires Resized(before[t].smpl, after[t].smpl)
    requires forall u | 0 <= u < |before| && u != t :: after[u] == before[u]
    ensures AllTimed(after, puts)
  {
    hide Starts;
    forall u | 0 <= u < |before| ensures Timed(after[u].smpl, Starts(puts, u), after[u].config.info) {
      assert Timed(before[u].smpl, Starts(puts, u), before[u].config.info);
    }
  }

  lemma StillWritable(before: seq<Track>, after: seq<Track>, puts: seq<Put>)
    requires AllWritable(before) && AllTimed(before, puts) && AllTimed(after, puts) && SameConfigs(before, after)
    ensures AllWritable(after)
  {
    hide Writable, Starts;
    forall t | 0 <= t < |after| && after[t].smpl != [] ensures Writable(after[t].config) {
      assert Timed(before[t].smpl, Starts(puts, t), before[t].config.info);
    }
  }

  lemma AllDescribable(tracks: seq<Track>, writePos: nat, configs: seq<Config>, puts: seq<Put>)
    requires Common(tracks, writePos, puts) && Describable(configs, puts) && |tracks| == |configs|
    requires forall t | 0 <= t < |tracks| :: tracks[t].config == configs[t]
    ensures AllWritable(tracks)
  {
    hide Writable, Starts, Samples;
  }

  lemma MoovThere(tracks: seq<Indexed>, comment: Option<seq<Byte>>)
    requires Indexable(tracks)
    ensures |Moov(tracks, comment)| >= 8
  {
    hide Mvhd, Traks, Udta, Encodable;
  }

  /** A whole file: open, add tracks, put samples in any interleaving, close. In sequential mode
      every sample is stored, behind the continuations that came too early for it. In
      non-sequential mode every sample is stored and no two overlap if and only if no bytes of a
      continuation are written behind bytes of another track. */
  method WriteFile(sequential: bool, configs: seq<Config>, puts: seq<Put>, comment: Option<seq<Byte>>)
    returns (file: seq<Byte>, tracks: seq<Track>, ghost bodies: seq<seq<Byte>>)
    requires (forall p | p in puts :: p.track < |configs|) && Describable(configs, puts)
    ensures |tracks| == |configs| && (forall t | 0 <= t < |tracks| :: tracks[t].config == configs[t])
    ensures AllWritable(tracks) && AllTimed(tracks, puts)
    ensures var index := Moov(IndexOf(tracks), comment);
            && |index| <= |file| <= 40 + Bytes(puts) + |index| && AllInOrder(tracks, |file| - |index|)
            && (sequential ==> file == FTYP + Mdats(bodies) + index && SeqFinished(file, tracks, puts))
            && (!sequential ==> DirectFile(file, |file| - |index|, index))
    ensures sequential ==> Disjoint(tracks) && BodiesFit(bodies, puts)
    ensures !sequential ==> (DirectFinished(file, tracks, puts) && Disjoint(tracks) <==> Adjacent(puts))
    ensures !sequential ==> (Disjoint(tracks) <==> Adjacent(puts))
  {
    hide AllInOrder, SeqState, DirectState, Common, Adjacent, Samples, Lead, Mdats, Writable, AllTimed, Moov, Bytes;
    hide SeqFinished, DirectFinished, Disjoint, DirectFile, BodiesFit, IndexOf, Refused;
    var mux := new Mux(sequential);
    for t := 0 to |configs|
      invariant mux.Valid() && fresh(mux) && |mux.tracks| == t && mux.history == [] && mux.sequential == sequential
      invariant forall u | 0 <= u < t :: mux.tracks[u].config == configs[u]
    {
      var _ := mux.AddTrack(configs[t]);
    }
    for k := 0 to |puts|
      invariant mux.Valid() && fresh(mux) && |mux.tracks| == |configs| && mux.history == puts[..k]
      invariant mux.sequential == sequential
      invariant forall u | 0 <= u < |configs| :: mux.tracks[u].config == configs[u]
    {
      assert puts[k] in puts && puts[..k + 1] == puts[..k] + [puts[k]];
      var p := puts[k];
      var _ := mux.PutSample(p.track, p.data, p.duration, p.kind);
    }
    assert puts[..|puts|] == puts;
    AllDescribable(mux.tracks, mux.writePos, configs, puts);
    mux.FlushIndex(comment);
    file, tracks, bodies := mux.file, mux.tracks, mux.bodies;
  }

  // ---------------------------------------------------------------- puts that spoil a sample

  const ANY := Config(Info(Private, 0, [0, 0, 0], 1, 0, 0, 0, 0), [], [])

  /** In non-sequential mode a continuation behind another track's put: descriptors overlap. */
  method InterleavedContinuation() returns (file: seq<Byte>, tracks: seq<Track>)
    ensures var puts := [Put(0, [1], 1, Plain), Put(1, [2], 1, Plain), Put(0, [3], 1, Continuation)];
            !Adjacent(puts) && !Disjoint(tracks)
  {
    hide Adjacent, Disjoint, Moov, IndexOf, Samples, Tight;
    var puts := [Put(0, [1], 1, Plain), Put(1, [2], 1, Plain), Put(0, [3], 1, Continuation)];
    ThreePuts(puts[0], puts[1], puts[2]);
    ghost var bodies;
    file, tracks, bodies := WriteFile(false, [ANY, ANY], puts, None);
  }

  lemma ThreePuts(a: Put, b: Put, c: Put)
    requires a == Put(0, [1], 1, Plain) && b == Put(1, [2], 1, Plain) && c == Put(0, [3], 1, Continuation)
    ensures !Adjacent([a, b, c])
  {
    hide Adjacent, Samples, Lead, Tight;
    Snoc([], a, 0);
    Snoc([a], b, 0);
    TightSnoc([a], b, 0);
    TightSnoc([a, b], c, 0);
    assert [] + [a] == [a] && [a] + [b] == [a, b] && [a, b] + [c] == [a, b, c];
  }

  /** In sequential mode a continuation in front of the first sample: it is stored with it. */
  method EarlyContinuation() returns (file: seq<Byte>, tracks: seq<Track>)
    ensures var puts := [Put(0, [9], 1, Continuation), Put(0, [1], 1, Plain)];
            && Samples(puts, 0) == [[1]] && |tracks| == 1 && |tracks[0].smpl| == 1
            && Stored(file, tracks[0].smpl[0], [9, 1]) && !Stored(file, tracks[0].smpl[0], [1])
  {
    hide Adjacent, Disjoint, Moov, IndexOf, Samples, Lead, Stored;
    var puts := [Put(0, [9], 1, Continuation), Put(0, [1], 1, Plain)];
    TwoPuts(puts[0], puts[1]);
    ghost var bodies;
    file, tracks, bodies := WriteFile(true, [ANY], puts, None);
    assert Stored(file, tracks[0].smpl[0], Whole(Samples(puts, 0), Lead(puts, 0), 0));
    assert Lead(puts, 0) + [1] == [9, 1];
    LeadSpoilsFirst(file, tracks[0].smpl[0], Samples(puts, 0), Lead(puts, 0));
  }

  lemma TwoPuts(a: Put, b: Put)
    requires a == Put(0, [9], 1, Continuation) && b == Put(0, [1], 1, Plain)
    ensures Samples([a, b], 0) == [[1]] && Lead([a, b], 0) == [9]
  {
    hide Samples, Lead;
    NoPuts();
    Snoc([], a, 0);
    Snoc([a], b, 0);
    assert [] + [a] == [a] && [a] + [b] == [a, b];
  }

  lemma NoPuts()
    ensures Samples([], 0) == [] && Lead([], 0) == []
  {}
}
