/** The non-sequential mode of the muxer in stream/minimp4.hpp: sample bytes go straight to the
    end of one mdat box, whatever their track. */
module Mp4Direct {
  import opened Seqs
  import opened Bits
  import opened Mp4Bytes
  import opened Mp4Boxes
  import opened Mp4Samples

  // ---------------------------------------------------------------- what was put

  /** A continuation before any sample of its track is refused. */
  predicate Refused(puts: seq<Put>, p: Put) {
    p.kind == Continuation && Samples(puts, p.track) == []
  }

  /** No bytes of another track were written behind the last put of track t that started a
      sample or wrote bytes. */
  predicate Tight(puts: seq<Put>, t: nat) {
    puts != [] &&
    var init, p := puts[..|puts| - 1], puts[|puts| - 1];
    if p.track == t && p.kind != Continuation then true
    else if Refused(init, p) || p.data == [] then Tight(init, t)
    else p.track == t
  }

  /** No bytes of a continuation are written behind bytes of another track. */
  predicate Adjacent(puts: seq<Put>) {
    puts == [] ||
    var init, p := puts[..|puts| - 1], puts[|puts| - 1];
    Adjacent(init)
      && (p.kind == Continuation && !Refused(init, p) && p.data != [] ==> Tight(init, p.track))
  }

  lemma TightSnoc(puts: seq<Put>, p: Put, t: nat)
    ensures Tight(puts + [p], t) ==
              if p.track == t && p.kind != Continuation then true
              else if Refused(puts, p) || p.data == [] then Tight(puts, t)
              else p.track == t
    ensures Adjacent(puts + [p]) <==>
              Adjacent(puts)
              && (p.kind == Continuation && !Refused(puts, p) && p.data != [] ==> Tight(puts, p.track))
  {
    assert (puts + [p])[..|puts|] == puts;
  }

  // ---------------------------------------------------------------- what is in the file

  ghost predicate DirectLayout(file: seq<Byte>, tracks: seq<Track>, writePos: nat, puts: seq<Put>) {
    && 32 <= |file| && file[..24] == FTYP
    && (|file| == writePos >= 40 || (|file| == 32 && writePos == 40))
    && AllInOrder(tracks, writePos)
    && forall t | 0 <= t < |tracks| :: tracks[t].pending == [] && |tracks[t].smpl| == |Samples(puts, t)|
  }

  ghost predicate DirectTrack(file: seq<Byte>, tr: Track, samples: seq<seq<Byte>>) {
    |tr.smpl| == |samples| && forall i | 0 <= i < |samples| :: Stored(file, tr.smpl[i], samples[i])
  }

  ghost predicate DirectTracks(file: seq<Byte>, tracks: seq<Track>, writePos: nat, puts: seq<Put>) {
    && (forall t | 0 <= t < |tracks| :: DirectTrack(file, tracks[t], Samples(puts, t)))
    && Separate(tracks, 40, writePos) && Touching(tracks, writePos, puts)
  }

  predicate EndsAt(smpl: seq<Sample>, pos: nat) {
    smpl != [] && var s := smpl[|smpl| - 1]; s.offset + s.size == pos
  }

  predicate Covers(s: Sample, pos: nat) {
    s.offset <= pos < s.offset + s.size
  }

  /** A sample of another track holds the byte behind the last sample of track t. */
  ghost predicate Covered(tracks: seq<Track>, t: nat)
    requires t < |tracks| && tracks[t].smpl != []
  {
    var s := tracks[t].smpl[|tracks[t].smpl| - 1];
    exists u, j | 0 <= u < |tracks| && u != t && 0 <= j < |tracks[u].smpl| ::
      Covers(tracks[u].smpl[j], s.offset + s.size)
  }

  /** The last sample of a track ends at the write position or in front of another track's
      byte; which of them, the puts tell. */
  ghost predicate Touching(tracks: seq<Track>, writePos: nat, puts: seq<Put>) {
    forall t | 0 <= t < |tracks| && tracks[t].smpl != [] ::
      if Tight(puts, t) then EndsAt(tracks[t].smpl, writePos) else Covered(tracks, t)
  }

  /** While continuations stay adjacent every sample is stored; from the first one that does
      not, two descriptors overlap. */
  ghost predicate DirectState(file: seq<Byte>, tracks: seq<Track>, writePos: nat, puts: seq<Put>) {
    && DirectLayout(file, tracks, writePos, puts)
    && if Adjacent(puts) then DirectTracks(file, tracks, writePos, puts) else !Disjoint(tracks)
  }

  // ---------------------------------------------------------------- one put

  /** The tracks after a put. */
  ghost function DirectTracksAfter(tracks: seq<Track>, writePos: nat, p: Put): (r: seq<Track>)
    requires p.track < |tracks|
    ensures SameConfigs(tracks, r)
  {
    var tr := tracks[p.track];
    if p.kind != Continuation then
      tracks[p.track := tr.(smpl := tr.smpl + [Descriptor(tr, |p.data|, writePos, p.duration, p.kind)])]
    else if tr.smpl == [] then tracks
    else
      var n := |tr.smpl| - 1;
      tracks[p.track := tr.(smpl := tr.smpl[n := tr.smpl[n].(size := tr.smpl[n].size + |p.data|)])]
  }

  predicate Writes(tracks: seq<Track>, p: Put)
    requires p.track < |tracks|
  {
    p.kind != Continuation || tracks[p.track].smpl != []
  }

  lemma WritesUnlessRefused(tracks: seq<Track>, puts: seq<Put>, p: Put)
    requires p.track < |tracks| && |tracks[p.track].smpl| == |Samples(puts, p.track)|
    ensures Writes(tracks, p) <==> !Refused(puts, p)
  {}

  lemma DirectTimed(tracks: seq<Track>, writePos: nat, puts: seq<Put>, p: Put)
    requires AllTimed(tracks, puts) && p.track < |tracks|
    ensures AllTimed(DirectTracksAfter(tracks, writePos, p), puts + [p])
  {
    hide AllTimed;
    TimedPut(tracks, DirectTracksAfter(tracks, writePos, p), puts, p, writePos);
  }

  lemma DirectLoad(tracks: seq<Track>, writePos: nat, p: Put)
    requires p.track < |tracks| && tracks[p.track].pending == []
    ensures Load(DirectTracksAfter(tracks, writePos, p)) == Load(tracks)
  {
    LoadUpdate(tracks, p.track, DirectTracksAfter(tracks, writePos, p)[p.track]);
  }

  /** Writing at the write position leaves the samples in front of it alone. */
  lemma StoredWrite(file: seq<Byte>, writePos: nat, data: seq<Byte>, s: Sample, d: seq<Byte>)
    requires Stored(file, s, d) && Inside(s, 40, writePos)
    ensures Stored(WriteAt(file, writePos, data), s, d)
  {
    hide WriteAt;
    WriteAtKeeps(file, writePos, data);
    var r := WriteAt(file, writePos, data);
    if d != [] && data != [] {
      assert forall k | s.offset <= k < s.offset + s.size :: r[k] == file[k];
      assert r[s.offset..s.offset + s.size] == file[s.offset..s.offset + s.size];
    }
  }

  /** Data written at the write position behind a stored sample extends it. */
  lemma StoredMore(file: seq<Byte>, writePos: nat, data: seq<Byte>, s: Sample, d: seq<Byte>)
    requires Stored(file, s, d) && Inside(s, 40, writePos) && s.offset + s.size == writePos
    ensures Stored(WriteAt(file, writePos, data), s.(size := s.size + |data|), d + data)
  {
    hide WriteAt;
    StoredWrite(file, writePos, data, s, d);
    WriteAtKeeps(file, writePos, data);
    var r := WriteAt(file, writePos, data);
    if data == [] {
      NothingBehind(d);
    } else if d == [] {
      NothingBehind(data);
    } else {
      Slices(r, s.offset, writePos, writePos + |data|);
    }
  }

  lemma DirectKeeps(file: seq<Byte>, writePos: nat, data: seq<Byte>, tr: Track, samples: seq<seq<Byte>>)
    requires DirectTrack(file, tr, samples) && forall i | 0 <= i < |tr.smpl| :: Inside(tr.smpl[i], 40, writePos)
    ensures DirectTrack(WriteAt(file, writePos, data), tr, samples)
  {
    hide WriteAt, Stored, Inside;
    forall i | 0 <= i < |samples| ensures Stored(WriteAt(file, writePos, data), tr.smpl[i], samples[i]) {
      StoredWrite(file, writePos, data, tr.smpl[i], samples[i]);
    }
  }

  lemma DirectNew(file: seq<Byte>, writePos: nat, data: seq<Byte>, tr: Track, samples: seq<seq<Byte>>, s: Sample)
    requires DirectTrack(file, tr, samples) && forall i | 0 <= i < |tr.smpl| :: Inside(tr.smpl[i], 40, writePos)
    requires s.size == |data| && s.offset == writePos
    ensures DirectTrack(WriteAt(file, writePos, data), tr.(smpl := tr.smpl + [s]), samples + [data])
  {
    DirectKeeps(file, writePos, data, tr, samples);
    WriteAtKeeps(file, writePos, data);
    hide WriteAt;
  }

  lemma DirectMore(file: seq<Byte>, writePos: nat, data: seq<Byte>, tr: Track, samples: seq<seq<Byte>>)
    requires DirectTrack(file, tr, samples) && forall i | 0 <= i < |tr.smpl| :: Inside(tr.smpl[i], 40, writePos)
    requires EndsAt(tr.smpl, writePos)
    ensures var n := |samples| - 1;
            DirectTrack(WriteAt(file, writePos, data),
                        tr.(smpl := tr.smpl[n := tr.smpl[n].(size := tr.smpl[n].size + |data|)]),
                        samples[..n] + [samples[n] + data])
  {
    hide WriteAt, Stored, Inside;
    var n := |samples| - 1;
    DirectKeeps(file, writePos, data, tr, samples);
    StoredMore(file, writePos, data, tr.smpl[n], samples[n]);
  }

  lemma DirectLayoutPut(file: seq<Byte>, tracks: seq<Track>, writePos: nat, puts: seq<Put>, p: Put)
    requires DirectLayout(file, tracks, writePos, puts) && p.track < |tracks|
    ensures var tracks' := DirectTracksAfter(tracks, writePos, p);
            if Writes(tracks, p) then
              DirectLayout(WriteAt(file, writePos, p.data), tracks', writePos + |p.data|, puts + [p])
            else DirectLayout(file, tracks, writePos, puts + [p])
  {
    hide Samples, Lead, InOrder;
    forall t | 0 <= t < |tracks| ensures |Samples(puts + [p], t)|
        == |Samples(puts, t)| + if t == p.track && p.kind != Continuation then 1 else 0 {
      Snoc(puts, p, t);
    }
    DirectOrder(tracks, writePos, p);
    WriteAtKeeps(file, writePos, p.data);
    var r := WriteAt(file, writePos, p.data);
    assert r[..24] == file[..24];
  }

  lemma DirectOrder(tracks: seq<Track>, writePos: nat, p: Put)
    requires AllInOrder(tracks, writePos) && p.track < |tracks|
    ensures AllInOrder(DirectTracksAfter(tracks, writePos, p), writePos + |p.data|)
  {
    hide InOrder, AllInOrder;
    var tr, later := tracks[p.track], writePos + |p.data|;
    var tr' := DirectTracksAfter(tracks, writePos, p)[p.track];
    OrderOf(tracks, writePos, p.track);
    if p.kind != Continuation {
      InOrderNew(tr.smpl, writePos, Descriptor(tr, |p.data|, writePos, p.duration, p.kind), later);
      InOrderLater(tracks, writePos, later, p.track, tr');
    } else if tr.smpl == [] {
      AllInOrderLater(tracks, writePos, later);
    } else {
      InOrderResized(tr.smpl, writePos, tr.smpl[|tr.smpl| - 1].size + |p.data|, later);
      InOrderLater(tracks, writePos, later, p.track, tr');
    }
  }

  lemma OrderOf(tracks: seq<Track>, writePos: nat, t: nat)
    requires AllInOrder(tracks, writePos) && t < |tracks|
    ensures InOrder(tracks[t].smpl, writePos)
  {}

  lemma InOrderResized(smpl: seq<Sample>, writePos: nat, size: nat, later: nat)
    requires InOrder(smpl, writePos) && smpl != [] && writePos <= later
    ensures var n := |smpl| - 1; InOrder(smpl[n := smpl[n].(size := size)], later)
  {}

  lemma DirectPut(file: seq<Byte>, tracks: seq<Track>, writePos: nat, puts: seq<Put>, p: Put)
    requires DirectLayout(file, tracks, writePos, puts) && p.track < |tracks|
    requires DirectTracks(file, tracks, writePos, puts) && Adjacent(puts + [p])
    ensures var tracks' := DirectTracksAfter(tracks, writePos, p);
            if Writes(tracks, p) then
              DirectTracks(WriteAt(file, writePos, p.data), tracks', writePos + |p.data|, puts + [p])
            else DirectTracks(file, tracks, writePos, puts + [p])
  {
    hide Samples, Lead, WriteAt, Stored, DirectTrack, Separate, Adjacent, Inside, Tight, Touching;
    var t, tr := p.track, tracks[p.track];
    Snoc(puts, p, t);
    TightSnoc(puts, p, t);
    InsideAll(tracks, writePos);
    DirectOthers(file, tracks, writePos, puts, p);
    TouchingPut(tracks, writePos, puts, p);
    if p.kind != Continuation {
      var s := Descriptor(tr, |p.data|, writePos, p.duration, p.kind);
      DirectNew(file, writePos, p.data, tr, Samples(puts, t), s);
      SeparateUpdate(tracks, 40, writePos, t, tr.(smpl := tr.smpl + [s]), |tr.smpl|, writePos + |p.data|);
    } else if tr.smpl == [] {
      DirectSamples(file, tr, Samples(puts, t));
    } else {
      DirectSamples(file, tr, Samples(puts, t));
      if p.data == [] {
        DirectNothing(file, tracks, writePos, puts, p);
      } else {
        LastTight(tracks, writePos, puts, t);
        DirectMore(file, writePos, p.data, tr, Samples(puts, t));
        SeparateExtend(tracks, writePos, t, |p.data|);
      }
    }
  }

  lemma LastTight(tracks: seq<Track>, writePos: nat, puts: seq<Put>, t: nat)
    requires Touching(tracks, writePos, puts) && t < |tracks| && tracks[t].smpl != [] && Tight(puts, t)
    ensures EndsAt(tracks[t].smpl, writePos)
  {}

  /** A continuation without bytes changes nothing. */
  lemma NothingAfter(tracks: seq<Track>, writePos: nat, p: Put)
    requires p.track < |tracks| && p.kind == Continuation && p.data == []
    ensures DirectTracksAfter(tracks, writePos, p) == tracks
  {
    var tr := tracks[p.track];
    if tr.smpl != [] {
      var n := |tr.smpl| - 1;
      assert tr.smpl[n := tr.smpl[n].(size := tr.smpl[n].size + 0)] == tr.smpl;
    }
  }

  lemma DirectNothing(file: seq<Byte>, tracks: seq<Track>, writePos: nat, puts: seq<Put>, p: Put)
    requires p.track < |tracks| && p.kind == Continuation && p.data == [] && tracks[p.track].smpl != []
    requires |tracks[p.track].smpl| == |Samples(puts, p.track)|
    ensures DirectTracksAfter(tracks, writePos, p) == tracks && WriteAt(file, writePos, p.data) == file
    ensures Samples(puts + [p], p.track) == Samples(puts, p.track)
  {
    hide Samples;
    NothingAfter(tracks, writePos, p);
    Snoc(puts, p, p.track);
    var samples := Samples(puts, p.track);
    NothingBehind(samples[|samples| - 1]);
  }

  lemma DirectSamples(file: seq<Byte>, tr: Track, samples: seq<seq<Byte>>)
    requires DirectTrack(file, tr, samples)
    ensures |tr.smpl| == |samples|
  {}

  lemma DirectOthers(file: seq<Byte>, tracks: seq<Track>, writePos: nat, puts: seq<Put>, p: Put)
    requires forall t | 0 <= t < |tracks| :: DirectTrack(file, tracks[t], Samples(puts, t))
    requires forall t, i | 0 <= t < |tracks| && 0 <= i < |tracks[t].smpl| :: Inside(tracks[t].smpl[i], 40, writePos)
    ensures forall t | 0 <= t < |tracks| && t != p.track ::
              && DirectTrack(file, tracks[t], Samples(puts + [p], t))
              && DirectTrack(WriteAt(file, writePos, p.data), tracks[t], Samples(puts + [p], t))
  {
    hide Samples, Lead, WriteAt, DirectTrack, Inside;
    forall t | 0 <= t < |tracks| && t != p.track
      ensures DirectTrack(file, tracks[t], Samples(puts + [p], t))
      ensures DirectTrack(WriteAt(file, writePos, p.data), tracks[t], Samples(puts + [p], t)) {
      OtherTrack(puts, p, t);
      DirectKeeps(file, writePos, p.data, tracks[t], Samples(puts, t));
    }
  }

  /** The last descriptor of a track grows at the write position. */
  lemma SeparateExtend(tracks: seq<Track>, writePos: nat, t: nat, len: nat)
    requires Separate(tracks, 40, writePos) && t < |tracks| && tracks[t].pending == [] && writePos >= 40
    requires EndsAt(tracks[t].smpl, writePos)
    ensures var n := |tracks[t].smpl| - 1;
            var s := tracks[t].smpl[n];
            Separate(tracks[t := tracks[t].(smpl := tracks[t].smpl[n := s.(size := s.size + len)])], 40, writePos + len)
  {
    var n := |tracks[t].smpl| - 1;
    var s := tracks[t].smpl[n];
    var after := tracks[t := tracks[t].(smpl := tracks[t].smpl[n := s.(size := s.size + len)])];
    assert Inside(s, 40, writePos);
    forall u, j | 0 <= u < |after| && 0 <= j < Settled(after[u])
      ensures Inside(after[u].smpl[j], 40, writePos + len)
      ensures u != t || j != n ==> after[u].smpl[j] == tracks[u].smpl[j] && Apart(after[t].smpl[n], after[u].smpl[j]) {
      assert Inside(tracks[u].smpl[j], 40, writePos);
    }
  }

  lemma InsideAll(tracks: seq<Track>, writePos: nat)
    requires Separate(tracks, 40, writePos) && forall t | 0 <= t < |tracks| :: tracks[t].pending == []
    ensures forall t, i | 0 <= t < |tracks| && 0 <= i < |tracks[t].smpl| :: Inside(tracks[t].smpl[i], 40, writePos)
  {}

  // ---------------------------------------------------------------- overlaps

  /** Descriptors stay where they are and only grow. */
  ghost predicate Grown(a: seq<Sample>, b: seq<Sample>) {
    |a| <= |b| && forall i | 0 <= i < |a| :: b[i].offset == a[i].offset && b[i].size >= a[i].size
  }

  lemma PutGrows(tracks: seq<Track>, writePos: nat, p: Put)
    requires p.track < |tracks|
    ensures forall u | 0 <= u < |tracks| :: Grown(tracks[u].smpl, DirectTracksAfter(tracks, writePos, p)[u].smpl)
  {}

  lemma OverlapStays(tracks: seq<Track>, writePos: nat, p: Put)
    requires p.track < |tracks| && !Disjoint(tracks)
    ensures !Disjoint(DirectTracksAfter(tracks, writePos, p))
  {
    hide Apart;
    var after := DirectTracksAfter(tracks, writePos, p);
    PutGrows(tracks, writePos, p);
    var t, i, u, j :| 0 <= t < |tracks| && 0 <= i < |tracks[t].smpl| && 0 <= u < |tracks|
      && 0 <= j < |tracks[u].smpl| && (t != u || i != j) && !Apart(tracks[t].smpl[i], tracks[u].smpl[j]);
    hide DirectTracksAfter;
    assert Grown(tracks[t].smpl, after[t].smpl) && Grown(tracks[u].smpl, after[u].smpl);
    if Disjoint(after) {
      assert Apart(after[t].smpl[i], after[u].smpl[j]);
      ApartShrinks(after[t].smpl[i], after[u].smpl[j], tracks[t].smpl[i], tracks[u].smpl[j]);
    }
  }

  lemma ApartShrinks(a: Sample, b: Sample, a': Sample, b': Sample)
    requires Apart(a, b) && a'.offset == a.offset && b'.offset == b.offset && a'.size <= a.size && b'.size <= b.size
    ensures Apart(a', b')
  {}

  /** Bytes put to a covered sample make it overlap the sample that covers its end. */
  lemma OverlapBegins(tracks: seq<Track>, writePos: nat, p: Put)
    requires p.track < |tracks| && p.kind == Continuation && p.data != []
    requires tracks[p.track].smpl != [] && Covered(tracks, p.track)
    ensures !Disjoint(DirectTracksAfter(tracks, writePos, p))
  {
    var t, n := p.track, |tracks[p.track].smpl| - 1;
    var s := tracks[t].smpl[n];
    var u, j :| 0 <= u < |tracks| && u != t && 0 <= j < |tracks[u].smpl|
      && Covers(tracks[u].smpl[j], s.offset + s.size);
    var after := DirectTracksAfter(tracks, writePos, p);
    assert after[u].smpl[j] == tracks[u].smpl[j];
    assert !Apart(after[t].smpl[n], after[u].smpl[j]);
  }

  lemma StillCovered(tracks: seq<Track>, writePos: nat, p: Put, t: nat)
    requires p.track < |tracks| && t < |tracks| && t != p.track && tracks[t].smpl != [] && Covered(tracks, t)
    ensures Covered(DirectTracksAfter(tracks, writePos, p), t)
  {
    var after, s := DirectTracksAfter(tracks, writePos, p), tracks[t].smpl[|tracks[t].smpl| - 1];
    PutGrows(tracks, writePos, p);
    var u, j :| 0 <= u < |tracks| && u != t && 0 <= j < |tracks[u].smpl|
      && Covers(tracks[u].smpl[j], s.offset + s.size);
    hide DirectTracksAfter;
    assert Grown(tracks[u].smpl, after[u].smpl);
    assert Covers(after[u].smpl[j], s.offset + s.size);
  }

  /** Bytes written behind track t cover its end. */
  lemma NowCovered(tracks: seq<Track>, writePos: nat, p: Put, t: nat)
    requires p.track < |tracks| && t < |tracks| && t != p.track && EndsAt(tracks[t].smpl, writePos) && p.data != []
    requires p.kind == Continuation ==> EndsAt(tracks[p.track].smpl, writePos)
    ensures Covered(DirectTracksAfter(tracks, writePos, p), t)
  {
    var after := DirectTracksAfter(tracks, writePos, p);
    var n := |after[p.track].smpl| - 1;
    assert Covers(after[p.track].smpl[n], writePos);
  }

  lemma TouchingPut(tracks: seq<Track>, writePos: nat, puts: seq<Put>, p: Put)
    requires Touching(tracks, writePos, puts) && p.track < |tracks| && Adjacent(puts + [p])
    requires |tracks[p.track].smpl| == |Samples(puts, p.track)|
    ensures Touching(DirectTracksAfter(tracks, writePos, p),
                     if Writes(tracks, p) then writePos + |p.data| else writePos, puts + [p])
  {
    hide Tight, Adjacent, Samples, Covered;
    var x, after := p.track, DirectTracksAfter(tracks, writePos, p);
    var writePos' := if Writes(tracks, p) then writePos + |p.data| else writePos;
    WritesUnlessRefused(tracks, puts, p);
    forall t | 0 <= t < |tracks| && after[t].smpl != []
      ensures if Tight(puts + [p], t) then EndsAt(after[t].smpl, writePos') else Covered(after, t) {
      TightSnoc(puts, p, t);
      if t != x {
        TouchingOther(tracks, writePos, puts, p, t);
      } else if p.kind == Continuation && p.data == [] {
        NothingAfter(tracks, writePos, p);
      }
    }
  }

  lemma TouchingOther(tracks: seq<Track>, writePos: nat, puts: seq<Put>, p: Put, t: nat)
    requires Touching(tracks, writePos, puts) && p.track < |tracks| && Adjacent(puts + [p])
    requires |tracks[p.track].smpl| == |Samples(puts, p.track)|
    requires t < |tracks| && t != p.track && tracks[t].smpl != []
    ensures var after := DirectTracksAfter(tracks, writePos, p);
            var writePos' := if Writes(tracks, p) then writePos + |p.data| else writePos;
            if Tight(puts + [p], t) then EndsAt(after[t].smpl, writePos') else Covered(after, t)
  {
    hide Tight, Adjacent, Samples, Covered;
    TightSnoc(puts, p, t);
    WritesUnlessRefused(tracks, puts, p);
    if Writes(tracks, p) && p.data != [] && Tight(puts, t) {
      assert p.kind == Continuation ==> EndsAt(tracks[p.track].smpl, writePos);
      NowCovered(tracks, writePos, p, t);
    } else if !Tight(puts, t) {
      StillCovered(tracks, writePos, p, t);
    }
  }

  // ---------------------------------------------------------------- every put

  lemma DirectStep(file: seq<Byte>, tracks: seq<Track>, writePos: nat, puts: seq<Put>, p: Put)
    requires DirectState(file, tracks, writePos, puts) && p.track < |tracks|
    ensures if Writes(tracks, p) then
              DirectState(WriteAt(file, writePos, p.data), DirectTracksAfter(tracks, writePos, p),
                          writePos + |p.data|, puts + [p])
            else DirectState(file, tracks, writePos, puts + [p])
  {
    DirectLayoutPut(file, tracks, writePos, puts, p);
    TightSnoc(puts, p, p.track);
    WritesUnlessRefused(tracks, puts, p);
    hide Samples, Tight, Adjacent, DirectTracks, WriteAt, AllInOrder, Disjoint, DirectLayout;
    if Adjacent(puts + [p]) {
      DirectPut(file, tracks, writePos, puts, p);
    } else if Adjacent(puts) {
      LastCovered(file, tracks, writePos, puts, p.track);
      OverlapBegins(tracks, writePos, p);
    } else {
      OverlapStays(tracks, writePos, p);
    }
  }

  lemma LastCovered(file: seq<Byte>, tracks: seq<Track>, writePos: nat, puts: seq<Put>, t: nat)
    requires DirectTracks(file, tracks, writePos, puts) && t < |tracks| && tracks[t].smpl != [] && !Tight(puts, t)
    ensures Covered(tracks, t)
  {}

  // ---------------------------------------------------------------- the finished file

  ghost predicate DirectFinished(file: seq<Byte>, tracks: seq<Track>, puts: seq<Put>) {
    forall t | 0 <= t < |tracks| :: DirectTrack(file, tracks[t], Samples(puts, t))
  }

  /** The sixteen bytes in front of the sample data, for boxes of `size` bytes in all. */
  function DirectHeader(size: nat): (h: seq<Byte>)
    ensures |h| == 16
  {
    if size > 0xffff_fffe then U32(1) + MDAT + U32(size / WORD) + U32(size % WORD)
    else U32(8) + FREE + U32(size - 8) + MDAT
  }

  ghost predicate DirectFile(file: seq<Byte>, writePos: nat, moov: seq<Byte>) {
    && 40 <= writePos && |file| == writePos + |moov|
    && file[..24] == FTYP && file[24..40] == DirectHeader(writePos - 24) && file[writePos..] == moov
  }

  /** In the patched file the boxes behind ftyp, an empty free box when the size fits into 32
      bits, reach exactly to the index. */
  lemma DirectBoxes(file: seq<Byte>, writePos: nat, moov: seq<Byte>)
    requires DirectFile(file, writePos, moov) && writePos - 24 < WORD * WORD && |file| >= 48
    ensures writePos - 24 > 0xffff_fffe ==> file[28..32] == MDAT && 24 + Extent(file[24..]) == writePos
    ensures writePos - 24 <= 0xffff_fffe ==>
              && file[28..32] == FREE && 24 + Extent(file[24..]) == 32
              && file[36..40] == MDAT && 32 + Extent(file[32..]) == writePos
  {
    hide Value32, U32, Extent;
    var size, h := writePos - 24, DirectHeader(writePos - 24);
    ExtentAt(file, 24);
    ExtentAt(file, 32);
    forall k | 0 <= k < 16 ensures file[24 + k] == h[k] {
      assert file[24..40][k] == h[k];
    }
    assert file[24..28] == h[0..4] && file[28..32] == h[4..8] && file[32..36] == h[8..12] && file[36..40] == h[12..16];
    HeaderParts(size);
    Value32OfU32(1);
    Value32OfU32(8);
    Value32OfU32(size - 8);
    Value32OfU32(size / WORD);
    Value32OfU32(size % WORD);
    WideSize(size);
  }

  lemma ExtentAt(file: seq<Byte>, p: nat)
    requires p + 16 <= |file|
    ensures var size := Value32(file[p..p + 4]);
            Extent(file[p..])
              == if size == 1 then Value32(file[p + 8..p + 12]) * WORD + Value32(file[p + 12..p + 16]) else size
  {
    hide Value32;
    var s := file[p..];
    assert s[..4] == file[p..p + 4] && s[8..12] == file[p + 8..p + 12] && s[12..16] == file[p + 12..p + 16];
  }

  lemma WideSize(size: nat)
    requires size < WORD * WORD
    ensures size / WORD < WORD && size / WORD * WORD + size % WORD == size
    ensures size / WORD % WORD == size / WORD && size % WORD % WORD == size % WORD
  {}

  lemma HeaderParts(size: nat)
    requires size >= 16
    ensures var h := DirectHeader(size);
            if size > 0xffff_fffe then
              h[0..4] == U32(1) && h[4..8] == MDAT && h[8..12] == U32(size / WORD) && h[12..16] == U32(size % WORD)
            else h[0..4] == U32(8) && h[4..8] == FREE && h[8..12] == U32(size - 8) && h[12..16] == MDAT
  {}

  lemma StoredPatch(file: seq<Byte>, writePos: nat, header: seq<Byte>, moov: seq<Byte>, s: Sample, d: seq<Byte>)
    requires Stored(file, s, d) && Inside(s, 40, writePos) && |header| == 16 && 24 <= |file|
    ensures Stored(WriteAt(WriteAt(file, 24, header), writePos, moov), s, d)
  {
    WriteAtKeeps(file, 24, header);
    var f := WriteAt(file, 24, header);
    if d != [] {
      assert f[s.offset..s.offset + s.size] == file[s.offset..s.offset + s.size];
    }
    StoredWrite(f, writePos, moov, s, d);
  }

  /** All descriptors are apart exactly if continuations stayed adjacent, and then every sample
      is stored. */
  lemma DirectFinish(file: seq<Byte>, tracks: seq<Track>, writePos: nat, puts: seq<Put>, header: seq<Byte>,
                     moov: seq<Byte>)
    requires DirectState(file, tracks, writePos, puts) && header == DirectHeader(writePos - 24) && moov != []
    ensures var r := WriteAt(WriteAt(file, 24, header), writePos, moov);
            && DirectFile(r, writePos, moov) && (Disjoint(tracks) <==> Adjacent(puts))
            && (Adjacent(puts) ==> DirectFinished(r, tracks, puts))
  {
    hide Samples, Adjacent, Touching, Stored, WriteAt, DirectHeader, Inside;
    DirectPatched(file, writePos, header, moov);
    if Adjacent(puts) {
      InsideAll(tracks, writePos);
      forall t, i | 0 <= t < |tracks| && 0 <= i < |tracks[t].smpl|
        ensures Stored(WriteAt(WriteAt(file, 24, header), writePos, moov), tracks[t].smpl[i], Samples(puts, t)[i]) {
        StoredPatch(file, writePos, header, moov, tracks[t].smpl[i], Samples(puts, t)[i]);
      }
    }
  }

  lemma DirectPatched(file: seq<Byte>, writePos: nat, header: seq<Byte>, moov: seq<Byte>)
    requires 32 <= |file| && file[..24] == FTYP && (|file| == writePos >= 40 || (|file| == 32 && writePos == 40))
    requires header == DirectHeader(writePos - 24) && moov != []
    ensures DirectFile(WriteAt(WriteAt(file, 24, header), writePos, moov), writePos, moov)
  {
    hide DirectHeader;
    var f := WriteAt(file, 24, header);
    assert f[..24] == FTYP && f[24..40] == header && |f| == writePos;
    Append(f, moov);
    assert (f + moov)[..24] == FTYP && (f + moov)[24..40] == header && (f + moov)[writePos..] == moov;
  }
}
