/** The samples that are put into an MP4 file, their descriptors, and the sequential mode of
    the muxer in stream/minimp4.hpp, in which a sample waits until the next one of its track. */
module Mp4Samples {
  import opened Seqs
  import opened Bits
  import opened Mp4Bytes
  import opened Mp4Boxes

  datatype Kind = Plain | RandomAccess | Continuation

  /** One call of MP4E_put_sample. */
  datatype Put = Put(track: nat, data: seq<Byte>, duration: nat, kind: Kind)

  /** What is known of a track before its samples come. */
  datatype Config = Config(info: Info, vsps: seq<Byte>, vpps: seq<Byte>)

  datatype Track = Track(config: Config, smpl: seq<Sample>, pending: seq<Byte>)

  datatype Status = Ok | NoMemory

  const FTYP: seq<Byte> := [0, 0, 0, 0x18, 0x66, 0x74, 0x79, 0x70, 0x6d, 0x70, 0x34, 0x32,
                            0, 0, 0, 0, 0x6d, 0x70, 0x34, 0x32, 0x69, 0x73, 0x6f, 0x6d]

  const FREE: seq<Byte> := [0x66, 0x72, 0x65, 0x65]

  // ---------------------------------------------------------------- what was put

  /** The samples of a track: each put that is not a continuation starts one. */
  function Samples(puts: seq<Put>, t: nat): seq<seq<Byte>> {
    if puts == [] then []
    else
      var before, p := Samples(puts[..|puts| - 1], t), puts[|puts| - 1];
      if p.track != t then before
      else if p.kind != Continuation then before + [p.data]
      else if before == [] then []
      else before[..|before| - 1] + [before[|before| - 1] + p.data]
  }

  /** The continuations that a track starts with, before any sample. */
  function Lead(puts: seq<Put>, t: nat): seq<Byte> {
    if puts == [] then []
    else
      var init, p := puts[..|puts| - 1], puts[|puts| - 1];
      Lead(init, t) + if p.track == t && p.kind == Continuation && Samples(init, t) == [] then p.data else []
  }

  /** A sample with the track's leading continuations in front of the first one. */
  function Whole(samples: seq<seq<Byte>>, lead: seq<Byte>, i: nat): seq<Byte>
    requires i < |samples|
  {
    if i == 0 then lead + samples[0] else samples[i]
  }

  lemma Snoc(puts: seq<Put>, p: Put, t: nat)
    ensures var before := Samples(puts, t);
            Samples(puts + [p], t) ==
              if p.track != t then before
              else if p.kind != Continuation then before + [p.data]
              else if before == [] then []
              else before[..|before| - 1] + [before[|before| - 1] + p.data]
    ensures Lead(puts + [p], t) ==
              Lead(puts, t) + if p.track == t && p.kind == Continuation && Samples(puts, t) == [] then p.data else []
  {
    hide Lead;
    LeadSnoc(puts, p, t);
    assert (puts + [p])[..|puts|] == puts;
  }

  lemma LeadSnoc(puts: seq<Put>, p: Put, t: nat)
    ensures Lead(puts + [p], t) ==
              Lead(puts, t) + if p.track == t && p.kind == Continuation && Samples(puts, t) == [] then p.data else []
  {
    hide Samples;
    assert (puts + [p])[..|puts|] == puts;
  }

  // ---------------------------------------------------------------- what is in the file

  /** The descriptor's stretch of the file is d. */
  predicate Stored(file: seq<Byte>, s: Sample, d: seq<Byte>) {
    s.size == |d| && (d != [] ==> s.offset + s.size <= |file| && file[s.offset..s.offset + s.size] == d)
  }

  /** Sequential mode: all samples but the last are in the file, the last one is pending. */
  ghost predicate Buffered(file: seq<Byte>, tr: Track, samples: seq<seq<Byte>>, lead: seq<Byte>) {
    && |tr.smpl| == |samples|
    && tr.pending == (if samples == [] then lead else Whole(samples, lead, |samples| - 1))
    && (forall i | 0 <= i < |samples| - 1 :: Stored(file, tr.smpl[i], Whole(samples, lead, i)))
    && (samples != [] && tr.pending == [] ==> tr.smpl[|samples| - 1].size == 0)
  }

  /** All samples are in the file. */
  ghost predicate Complete(file: seq<Byte>, tr: Track, samples: seq<seq<Byte>>, lead: seq<Byte>) {
    && |tr.smpl| == |samples| && tr.pending == (if samples == [] then lead else [])
    && (forall i | 0 <= i < |samples| :: Stored(file, tr.smpl[i], Whole(samples, lead, i)))
  }

  /** The descriptors of a track that are final. */
  function Settled(tr: Track): (n: nat)
    ensures n <= |tr.smpl|
  {
    if tr.pending == [] then |tr.smpl| else if tr.smpl == [] then 0 else |tr.smpl| - 1
  }

  predicate Apart(a: Sample, b: Sample) {
    a.size == 0 || b.size == 0 || a.offset + a.size <= b.offset || b.offset + b.size <= a.offset
  }

  /** Final descriptors lie behind the file header, before the write position, and no two overlap. */
  ghost predicate Separate(tracks: seq<Track>, first: nat, writePos: nat) {
    && (forall t, i | 0 <= t < |tracks| && 0 <= i < Settled(tracks[t]) :: Inside(tracks[t].smpl[i], first, writePos))
    && (forall t, i, u, j | 0 <= t < |tracks| && 0 <= i < Settled(tracks[t])
                         && 0 <= u < |tracks| && 0 <= j < Settled(tracks[u]) && (t != u || i != j) ::
          Apart(tracks[t].smpl[i], tracks[u].smpl[j]))
  }

  predicate Inside(s: Sample, first: nat, writePos: nat) {
    s.size == 0 || (first <= s.offset && s.offset + s.size <= writePos)
  }

  lemma StoredKeeps(file: seq<Byte>, more: seq<Byte>, s: Sample, d: seq<Byte>)
    requires Stored(file, s, d)
    ensures Stored(file + more, s, d)
  {
    if d != [] {
      assert (file + more)[s.offset..s.offset + s.size] == file[s.offset..s.offset + s.size];
    }
  }

  lemma BufferedKeeps(file: seq<Byte>, more: seq<Byte>, tr: Track, samples: seq<seq<Byte>>, lead: seq<Byte>)
    ensures Buffered(file, tr, samples, lead) ==> Buffered(file + more, tr, samples, lead)
    ensures Complete(file, tr, samples, lead) ==> Complete(file + more, tr, samples, lead)
  {
    hide Stored, Whole;
    forall s, d | Stored(file, s, d) ensures Stored(file + more, s, d) {
      StoredKeeps(file, more, s, d);
    }
  }

  /** The pending sample of a track goes to a new mdat box at the end of the file. */
  lemma Settle(file: seq<Byte>, tr: Track, samples: seq<seq<Byte>>, lead: seq<Byte>, tr': Track)
    requires Buffered(file, tr, samples, lead) && tr.pending != [] && samples != []
    requires tr' == Written(tr, |file| + 8)
    ensures Complete(file + Mdat(tr.pending), tr', samples, lead)
  {
    hide Stored, Whole, Mdat;
    var n, more := |samples| - 1, Mdat(tr.pending);
    BufferedKeeps(file, more, tr, samples, lead);
    JustStored(file, tr.pending, tr'.smpl[n]);
  }

  lemma JustStored(file: seq<Byte>, d: seq<Byte>, s: Sample)
    requires s.size == |d| && s.offset == |file| + 8
    ensures Stored(file + Mdat(d), s, d)
  {
    assert file + Mdat(d) == file + (U32(|d| + 8) + MDAT) + d;
  }

  /** One descriptor of track t changes to a region at or behind the write position, or to
      an empty one. */
  lemma SeparateUpdate(tracks: seq<Track>, first: nat, writePos: nat, t: nat, tr': Track, i: nat, writePos': nat)
    requires Separate(tracks, first, writePos) && t < |tracks| && first <= writePos <= writePos'
    requires Settled(tr') <= i + 1 && i <= Settled(tracks[t]) && i <= |tr'.smpl|
    requires forall k | 0 <= k < i :: tr'.smpl[k] == tracks[t].smpl[k]
    requires i < Settled(tr') ==>
               var s := tr'.smpl[i]; s.size == 0 || (writePos <= s.offset && s.offset + s.size <= writePos')
    ensures Separate(tracks[t := tr'], first, writePos')
  {}

  // ---------------------------------------------------------------- the two modes

  /** The offsets of a track never decrease and do not pass the write position. */
  predicate InOrder(smpl: seq<Sample>, writePos: nat) {
    && (forall i | 0 <= i < |smpl| :: smpl[i].offset <= writePos)
    && (forall i, j | 0 <= i < j < |smpl| :: smpl[i].offset <= smpl[j].offset)
  }

  predicate AllInOrder(tracks: seq<Track>, writePos: nat) {
    forall t | 0 <= t < |tracks| :: InOrder(tracks[t].smpl, writePos)
  }

  lemma InOrderLater(tracks: seq<Track>, writePos: nat, writePos': nat, t: nat, tr': Track)
    requires AllInOrder(tracks, writePos) && writePos <= writePos' && t < |tracks| && InOrder(tr'.smpl, writePos')
    ensures AllInOrder(tracks[t := tr'], writePos')
  {}

  lemma AllInOrderLater(tracks: seq<Track>, writePos: nat, writePos': nat)
    requires AllInOrder(tracks, writePos) && writePos <= writePos'
    ensures AllInOrder(tracks, writePos')
  {}

  /** The last offset moves up to the write position, or a new one is added there. */
  lemma InOrderNew(smpl: seq<Sample>, writePos: nat, s: Sample, writePos': nat)
    requires InOrder(smpl, writePos) && writePos <= s.offset <= writePos'
    ensures InOrder(smpl + [s], writePos')
    ensures smpl != [] ==> InOrder(smpl[|smpl| - 1 := s], writePos')
  {}

  // ---------------------------------------------------------------- the index

  /** What the index writer needs of a track. */
  predicate Writable(c: Config) {
    Encodable(Indexed(c.info, [], c.vsps, c.vpps))
  }

  predicate AllWritable(tracks: seq<Track>) {
    && (tracks != [] ==> tracks[0].config.info.timeScale > 0)
    && forall t | 0 <= t < |tracks| && tracks[t].smpl != [] :: Writable(tracks[t].config)
  }

  /** What the puts call for of the configurations. */
  predicate Describable(configs: seq<Config>, puts: seq<Put>) {
    && (configs != [] ==> configs[0].info.timeScale > 0)
    && forall t | 0 <= t < |configs| && Samples(puts, t) != [] :: Writable(configs[t])
  }

  /** The tracks as the index writer sees them. */
  function IndexOf(tracks: seq<Track>): (x: seq<Indexed>)
    requires AllWritable(tracks)
    ensures |x| == |tracks| && Indexable(x)
    ensures forall t | 0 <= t < |tracks| ::
              x[t] == Indexed(tracks[t].config.info, tracks[t].smpl, tracks[t].config.vsps, tracks[t].config.vpps)
  {
    if tracks == [] then []
    else
      var tr := tracks[|tracks| - 1];
      IndexOf(tracks[..|tracks| - 1]) + [Indexed(tr.config.info, tr.smpl, tr.config.vsps, tr.config.vpps)]
  }

  /** The tracks differ in nothing but the samples. */
  ghost predicate SameConfigs(a: seq<Track>, b: seq<Track>) {
    |a| == |b| && forall t | 0 <= t < |a| :: a[t].config == b[t].config
  }

  // ---------------------------------------------------------------- durations and flags

  /** The puts that start a sample. */
  function Starts(puts: seq<Put>, t: nat): (s: seq<Put>)
    ensures |s| == |Samples(puts, t)|
  {
    if puts == [] then []
    else
      var before, p := Starts(puts[..|puts| - 1], t), puts[|puts| - 1];
      if p.track == t && p.kind != Continuation then before + [p] else before
  }

  /** All that is put for a track, one behind the other. */
  function DataOf(puts: seq<Put>, t: nat): seq<Byte> {
    if puts == [] then [] else (if puts[0].track == t then puts[0].data else []) + DataOf(puts[1..], t)
  }

  lemma {:induction false} DataSnoc(puts: seq<Put>, p: Put, t: nat)
    ensures DataOf(puts + [p], t) == DataOf(puts, t) + if p.track == t then p.data else []
  {
    if puts == [] {
      assert ([] + [p])[1..] == [];
    } else {
      DataSnoc(puts[1..], p, t);
      assert (puts + [p])[1..] == puts[1..] + [p];
      Assoc(if puts[0].track == t then puts[0].data else [], DataOf(puts[1..], t), if p.track == t then p.data else []);
    }
  }

  /** The samples of a track and what comes too early for them are all that is put for it, in its
      order. */
  lemma {:induction false} Conserved(puts: seq<Put>, t: nat)
    ensures Lead(puts, t) + Cat(Samples(puts, t)) == DataOf(puts, t)
  {
    hide Lead, Samples, DataOf, Cat;
    if puts == [] {
      NothingPut(t);
    } else {
      var init, p := puts[..|puts| - 1], puts[|puts| - 1];
      Conserved(init, t);
      assert puts == init + [p];
      Snoc(init, p, t);
      DataSnoc(init, p, t);
      OneMorePut(Lead(init, t), Samples(init, t), p.data);
      NothingBehind(DataOf(init, t));
      NothingBehind(Lead(init, t));
    }
  }

  lemma OneMorePut(lead: seq<Byte>, before: seq<seq<Byte>>, data: seq<Byte>)
    ensures lead + Cat(before + [data]) == lead + Cat(before) + data
    ensures before == [] ==> lead + data + Cat([]) == lead + Cat(before) + data
    ensures before != [] ==>
              lead + Cat(before[..|before| - 1] + [before[|before| - 1] + data]) == lead + Cat(before) + data
  {
    hide Cat;
    OneMore(lead, before, data);
    if before == [] {
      EmptyCat(lead);
      EmptyCat(lead + data);
    } else {
      InitLast(before);
      LastGrows(lead, before[..|before| - 1], before[|before| - 1], data);
    }
  }

  lemma EmptyCat(a: seq<Byte>)
    ensures a + Cat([]) == a
  {}

  lemma InitLast<T>(s: seq<T>)
    requires s != []
    ensures s == s[..|s| - 1] + [s[|s| - 1]]
  {}

  lemma NothingPut(t: nat)
    ensures Lead([], t) == [] && Samples([], t) == [] && DataOf([], t) == [] && Cat([]) == []
  {}

  /** The puts that start samples are those for the track that are no continuations, and each sample
      begins with the data of its own. */
  lemma StartsAre(puts: seq<Put>, t: nat)
    ensures forall p :: p in Starts(puts, t) <==> p in puts && p.track == t && p.kind != Continuation
    ensures forall i | 0 <= i < |Starts(puts, t)| :: Starts(puts, t)[i].data <= Samples(puts, t)[i]
  {
    hide Samples, Starts;
    StartsAmong(puts, t);
    StartsBegin(puts, t);
  }

  lemma {:induction false} StartsAmong(puts: seq<Put>, t: nat)
    ensures forall p :: p in Starts(puts, t) <==> p in puts && p.track == t && p.kind != Continuation
  {
    hide Samples;
    if puts != [] {
      StartsAmong(puts[..|puts| - 1], t);
      InitLast(puts);
    }
  }

  lemma {:induction false} StartsBegin(puts: seq<Put>, t: nat)
    ensures Begin(Starts(puts, t), Samples(puts, t))
  {
    hide Samples, Begin;
    if puts == [] {
      assert Begin([], Samples(puts, t)) by { NothingBegins(t); }
    } else {
      var init, p := puts[..|puts| - 1], puts[|puts| - 1];
      StartsBegin(init, t);
      InitLast(puts);
      Snoc(init, p, t);
      BeginMore(Starts(init, t), Samples(init, t), p);
    }
  }

  ghost predicate Begin(starts: seq<Put>, samples: seq<seq<Byte>>) {
    |starts| == |samples| && forall i | 0 <= i < |starts| :: starts[i].data <= samples[i]
  }

  lemma NothingBegins(t: nat)
    ensures Begin([], Samples([], t))
  {}

  lemma BeginMore(starts: seq<Put>, before: seq<seq<Byte>>, p: Put)
    requires Begin(starts, before)
    ensures Begin(starts + [p], before + [p.data])
    ensures before != [] ==> Begin(starts, before[..|before| - 1] + [before[|before| - 1] + p.data])
  {}

  lemma OneMore(lead: seq<Byte>, before: seq<seq<Byte>>, data: seq<Byte>)
    ensures lead + Cat(before + [data]) == lead + Cat(before) + data
  {
    hide Cat;
    CatSnoc(before, data);
    Assoc(lead, Cat(before), data);
  }

  lemma LastGrows(lead: seq<Byte>, init: seq<seq<Byte>>, last: seq<Byte>, data: seq<Byte>)
    ensures lead + Cat(init + [last + data]) == lead + Cat(init + [last]) + data
  {
    hide Cat;
    CatSnoc(init, last + data);
    CatSnoc(init, last);
    Assoc(Cat(init), last, data);
    Assoc(lead, Cat(init) + last, data);
  }

  /** The duration that was put, or that of the track in its place. */
  lemma LengthIs(p: Put, i: Info)
    ensures p.duration > 0 ==> Length(p, i) == p.duration
    ensures p.duration == 0 ==> Length(p, i) == i.defaultDuration
  {}

  /** A duration of 0 stands for the track's own. */
  function Length(p: Put, i: Info): nat {
    if p.duration != 0 then p.duration else i.defaultDuration
  }

  /** Each descriptor has the duration and the random access flag of the put that started it. */
  ghost predicate Timed(smpl: seq<Sample>, starts: seq<Put>, i: Info) {
    && |smpl| == |starts|
    && forall k | 0 <= k < |smpl| ::
         smpl[k].duration == Length(starts[k], i) && smpl[k].sync == (starts[k].kind == RandomAccess)
  }

  ghost predicate AllTimed(tracks: seq<Track>, puts: seq<Put>) {
    forall t | 0 <= t < |tracks| :: Timed(tracks[t].smpl, Starts(puts, t), tracks[t].config.info)
  }

  function Descriptor(tr: Track, dataBytes: nat, offset: nat, duration: nat, kind: Kind): Sample {
    Sample(dataBytes, offset, if duration != 0 then duration else tr.config.info.defaultDuration, kind == RandomAccess)
  }

  /** Only sizes and offsets differ. */
  ghost predicate Resized(a: seq<Sample>, b: seq<Sample>) {
    |a| == |b| && forall k | 0 <= k < |a| :: a[k].duration == b[k].duration && a[k].sync == b[k].sync
  }

  lemma ResizedSame(a: seq<Sample>)
    ensures Resized(a, a)
  {}

  lemma StartsSnoc(puts: seq<Put>, p: Put, t: nat)
    ensures Starts(puts + [p], t)
         == Starts(puts, t) + if p.track == t && p.kind != Continuation then [p] else []
  {
    assert (puts + [p])[..|puts|] == puts;
    NothingBehind(Starts(puts, t));
  }

  lemma TimedNew(tr: Track, smpl': seq<Sample>, starts: seq<Put>, p: Put, offset: nat)
    requires Timed(tr.smpl, starts, tr.config.info) && p.kind != Continuation
    requires smpl' != [] && Resized(tr.smpl, smpl'[..|smpl'| - 1])
    requires Resized([Descriptor(tr, |p.data|, offset, p.duration, p.kind)], [smpl'[|smpl'| - 1]])
    ensures Timed(smpl', starts + [p], tr.config.info)
  {
    var n, last := |tr.smpl|, [smpl'[|smpl'| - 1]];
    forall k | 0 <= k < n ensures smpl'[k].duration == tr.smpl[k].duration && smpl'[k].sync == tr.smpl[k].sync {
      assert smpl'[k] == smpl'[..|smpl'| - 1][k];
    }
    assert last[0] == smpl'[n];
  }

  lemma TimedSame(a: seq<Sample>, b: seq<Sample>, starts: seq<Put>, i: Info)
    requires Timed(a, starts, i) && Resized(a, b)
    ensures Timed(b, starts, i)
  {}

  /** A put adds a descriptor with its duration and flag to its own track, or none. */
  lemma TimedPut(tracks: seq<Track>, tracks': seq<Track>, puts: seq<Put>, p: Put, offset: nat)
    requires AllTimed(tracks, puts) && SameConfigs(tracks, tracks') && p.track < |tracks|
    requires forall u | 0 <= u < |tracks| && u != p.track :: Resized(tracks[u].smpl, tracks'[u].smpl)
    requires var tr, smpl' := tracks[p.track], tracks'[p.track].smpl;
             if p.kind == Continuation then Resized(tr.smpl, smpl')
             else smpl' != [] && Resized(tr.smpl, smpl'[..|smpl'| - 1])
                  && Resized([Descriptor(tr, |p.data|, offset, p.duration, p.kind)], [smpl'[|smpl'| - 1]])
    ensures AllTimed(tracks', puts + [p])
  {
    hide Timed, Resized, Starts, Descriptor;
    forall t | 0 <= t < |tracks| ensures Timed(tracks'[t].smpl, Starts(puts + [p], t), tracks[t].config.info) {
      StartsSnoc(puts, p, t);
      NothingBehind(Starts(puts, t));
      if t == p.track && p.kind != Continuation {
        TimedNew(tracks[t], tracks'[t].smpl, Starts(puts, t), p, offset);
      } else {
        TimedSame(tracks[t].smpl, tracks'[t].smpl, Starts(puts, t), tracks[t].config.info);
      }
    }
  }

  // ---------------------------------------------------------------- sizes

  /** What a file of these puts needs at most, an mdat box for each included. */
  function Bytes(puts: seq<Put>): nat {
    if puts == [] then 0 else Bytes(puts[..|puts| - 1]) + |puts[|puts| - 1].data| + 8
  }

  /** What is still to be written for the pending samples. */
  function Load(tracks: seq<Track>): nat {
    if tracks == [] then 0 else Load(tracks[..|tracks| - 1]) + Pending(tracks[|tracks| - 1])
  }

  function Pending(tr: Track): nat {
    if tr.pending == [] then 0 else |tr.pending| + 8
  }

  lemma BytesSnoc(puts: seq<Put>, p: Put)
    ensures Bytes(puts + [p]) == Bytes(puts) + |p.data| + 8
  {
    assert (puts + [p])[..|puts|] == puts;
  }

  lemma LoadSnoc(tracks: seq<Track>, tr: Track)
    ensures Load(tracks + [tr]) == Load(tracks) + Pending(tr)
  {
    assert (tracks + [tr])[..|tracks|] == tracks;
  }

  lemma {:induction false} LoadUpdate(tracks: seq<Track>, t: nat, tr: Track)
    requires t < |tracks|
    ensures Load(tracks[t := tr]) + Pending(tracks[t]) == Load(tracks) + Pending(tr)
  {
    hide Pending;
    var n := |tracks| - 1;
    if t < n {
      LoadUpdate(tracks[..n], t, tr);
      assert tracks[t := tr][..n] == tracks[..n][t := tr];
    } else {
      assert tracks[t := tr][..n] == tracks[..n];
    }
  }

  /** Every sample's size fits its 32-bit field; in sequential mode its mdat box counts, and
      must not have the size that the demuxer takes for the rest of the file. */
  ghost predicate SizesFit(sequential: bool, puts: seq<Put>) {
    forall t: nat, i: nat | i < |Samples(puts, t)| ::
      if sequential then |Whole(Samples(puts, t), Lead(puts, t), i)| + 8 < WORD - 1 else |Samples(puts, t)[i]| < WORD
  }

  ghost predicate BodiesFit(bodies: seq<seq<Byte>>, puts: seq<Put>) {
    SizesFit(true, puts) ==> forall b | b in bodies :: |b| + 8 < WORD - 1
  }

  /** Samples only grow. */
  lemma SizesFitBefore(puts: seq<Put>, p: Put)
    requires SizesFit(true, puts + [p])
    ensures SizesFit(true, puts)
  {
    hide Samples, Lead;
    forall t: nat, i: nat | i < |Samples(puts, t)|
      ensures |Whole(Samples(puts, t), Lead(puts, t), i)| + 8 < WORD - 1 {
      Snoc(puts, p, t);
      NothingBehind(Lead(puts, t));
      assert i < |Samples(puts + [p], t)|;
      assert |Whole(Samples(puts + [p], t), Lead(puts + [p], t), i)| + 8 < WORD - 1;
    }
  }

  lemma BodiesFitLater(bodies: seq<seq<Byte>>, puts: seq<Put>, p: Put)
    requires BodiesFit(bodies, puts)
    ensures BodiesFit(bodies, puts + [p])
  {
    hide SizesFit;
    if SizesFit(true, puts + [p]) {
      SizesFitBefore(puts, p);
    }
  }

  /** A pending sample is as long as it will be. */
  lemma BodiesFitSnoc(file: seq<Byte>, tr: Track, t: nat, bodies: seq<seq<Byte>>, puts: seq<Put>)
    requires BodiesFit(bodies, puts) && Buffered(file, tr, Samples(puts, t), Lead(puts, t)) && tr.smpl != []
    ensures BodiesFit(bodies + [tr.pending], puts)
  {
    hide Samples, Lead, Whole, Stored;
    if SizesFit(true, puts) {
      var n := |Samples(puts, t)| - 1;
      assert n < |Samples(puts, t)|;
      assert |Whole(Samples(puts, t), Lead(puts, t), n)| + 8 < WORD - 1;
    }
  }

  // ---------------------------------------------------------------- the sequential mode

  /** The file is the header and one mdat box for each body. */
  ghost predicate SeqLayout(file: seq<Byte>, tracks: seq<Track>, writePos: nat, bodies: seq<seq<Byte>>) {
    && writePos == |file| && file == FTYP + Mdats(bodies)
    && Separate(tracks, |FTYP|, writePos) && AllInOrder(tracks, writePos)
  }

  ghost predicate SeqTracks(file: seq<Byte>, tracks: seq<Track>, puts: seq<Put>) {
    forall t | 0 <= t < |tracks| :: Buffered(file, tracks[t], Samples(puts, t), Lead(puts, t))
  }

  lemma {:induction false} Untouched(puts: seq<Put>, t: nat)
    requires forall p | p in puts :: p.track != t
    ensures Samples(puts, t) == [] && Lead(puts, t) == []
  {
    if puts != [] {
      Untouched(puts[..|puts| - 1], t);
    }
  }

  /** A put changes the samples of its own track only. */
  lemma OtherTrack(puts: seq<Put>, p: Put, t: nat)
    requires p.track != t
    ensures Samples(puts + [p], t) == Samples(puts, t) && Lead(puts + [p], t) == Lead(puts, t)
  {
    Snoc(puts, p, t);
    NothingBehind(Lead(puts, t));
  }

  // ---------------------------------------------------------------- steps of sequential mode

  /** Nothing pending: the buffered samples are all in the file. */
  lemma NothingPending(file: seq<Byte>, tr: Track, samples: seq<seq<Byte>>, lead: seq<Byte>)
    requires Buffered(file, tr, samples, lead) && (tr.pending == [] || samples == [])
    ensures Complete(file, tr, samples, lead)
  {}

  lemma SeqNew(file: seq<Byte>, tr: Track, samples: seq<seq<Byte>>, lead: seq<Byte>, data: seq<Byte>, s: Sample)
    requires Complete(file, tr, samples, lead) && s.size == |data|
    ensures Buffered(file, tr.(smpl := tr.smpl + [s], pending := tr.pending + data), samples + [data], lead)
  {
    hide Stored;
    if samples != [] {
      assert [] + data == data;
    }
    forall i | 0 <= i < |samples| ensures Whole(samples + [data], lead, i) == Whole(samples, lead, i) {}
  }

  lemma SeqMore(file: seq<Byte>, tr: Track, samples: seq<seq<Byte>>, lead: seq<Byte>, data: seq<Byte>)
    requires Buffered(file, tr, samples, lead)
    ensures samples == [] ==> Buffered(file, tr.(pending := tr.pending + data), samples, lead + data)
    ensures samples != [] ==>
              var n := |samples| - 1;
              Buffered(file, tr.(pending := tr.pending + data), samples[..n] + [samples[n] + data], lead)
  {
    hide Stored;
    if samples != [] {
      var n := |samples| - 1;
      Assoc(lead, samples[n], data);
      var more := samples[..n] + [samples[n] + data];
      forall i | 0 <= i < n ensures Whole(more, lead, i) == Whole(samples, lead, i) {}
    }
  }

  /** A track behind the put p, which adds the descriptor s unless it continues a sample. */
  function Taken(tr: Track, p: Put, s: Sample): Track {
    tr.(smpl := if p.kind == Continuation then tr.smpl else tr.smpl + [s], pending := tr.pending + p.data)
  }

  /** The put p turns the buffered track tr into the buffered track tr'. */
  lemma SeqPut(file: seq<Byte>, tr: Track, puts: seq<Put>, p: Put, s: Sample)
    requires p.kind == Continuation ==> Buffered(file, tr, Samples(puts, p.track), Lead(puts, p.track))
    requires p.kind != Continuation ==>
               Complete(file, tr, Samples(puts, p.track), Lead(puts, p.track)) && s.size == |p.data|
    ensures Buffered(file, Taken(tr, p, s), Samples(puts + [p], p.track), Lead(puts + [p], p.track))
  {
    hide Buffered, Complete, Samples, Lead;
    var samples, lead := Samples(puts, p.track), Lead(puts, p.track);
    Snoc(puts, p, p.track);
    NothingBehind(lead);
    if p.kind != Continuation {
      SeqNew(file, tr, samples, lead, p.data, s);
    } else {
      SeqMore(file, tr, samples, lead, p.data);
    }
  }

  lemma SettledPut(tr: Track, file: seq<Byte>, samples: seq<seq<Byte>>, lead: seq<Byte>, p: Put, s: Sample,
                   tracks: seq<Track>, writePos: nat, t: nat)
    requires Separate(tracks, |FTYP|, writePos) && t < |tracks| && tracks[t] == tr && |FTYP| <= writePos
    requires p.kind != Continuation ==> Complete(file, tr, samples, lead) && s.size == |p.data|
    ensures Separate(tracks[t := Taken(tr, p, s)], |FTYP|, writePos)
  {
    hide Stored, Separate, Whole;
    var tr' := Taken(tr, p, s);
    var n := if p.kind == Continuation then Settled(tr') else Settled(tr);
    SeparateUpdate(tracks, |FTYP|, writePos, t, tr', n, writePos);
  }

  lemma OtherTracks(file: seq<Byte>, file': seq<Byte>, tracks: seq<Track>, tracks': seq<Track>, puts: seq<Put>, p: Put)
    requires file <= file' && |tracks| == |tracks'| && SeqTracks(file, tracks, puts)
    requires forall u | 0 <= u < |tracks| && u != p.track :: tracks[u] == tracks'[u]
    ensures forall u | 0 <= u < |tracks| && u != p.track ::
              Buffered(file', tracks'[u], Samples(puts + [p], u), Lead(puts + [p], u))
  {
    hide Buffered, Complete, Samples, Lead;
    forall u | 0 <= u < |tracks| && u != p.track
      ensures Buffered(file', tracks'[u], Samples(puts + [p], u), Lead(puts + [p], u)) {
      OtherTrack(puts, p, u);
      BufferedKeeps(file, file'[|file|..], tracks[u], Samples(puts, u), Lead(puts, u));
      assert file + file'[|file|..] == file';
    }
  }

  lemma Append(file: seq<Byte>, data: seq<Byte>)
    ensures WriteAt(file, |file|, data) == file + data
  {}

  /** Header and body written one behind the other are a new box. */
  lemma AppendBox(file: seq<Byte>, data: seq<Byte>, bodies: seq<seq<Byte>>)
    requires file == FTYP + Mdats(bodies)
    ensures var r := WriteAt(WriteAt(file, |file|, U32(|data| + 8) + MDAT), |file| + 8, data);
            r == file + Mdat(data) && r == FTYP + Mdats(bodies + [data]) && file <= r
  {
    hide WriteAt, Mdats, U32;
    var head := U32(|data| + 8) + MDAT;
    Append(file, head);
    Append(file + head, data);
    Assoc(file, head, data);
    MdatsSnoc(bodies, data);
    Assoc(FTYP, Mdats(bodies), Mdat(data));
  }

  /** A track whose pending sample has been written at `offset`. */
  function Written(tr: Track, offset: nat): Track
    requires tr.smpl != []
  {
    var n := |tr.smpl| - 1;
    tr.(smpl := tr.smpl[n := tr.smpl[n].(size := |tr.pending|, offset := offset)], pending := [])
  }

  lemma BufferedLength(file: seq<Byte>, tr: Track, samples: seq<seq<Byte>>, lead: seq<Byte>)
    requires Buffered(file, tr, samples, lead)
    ensures |tr.smpl| == |samples|
  {}

  // ---------------------------------------------------------------- the finished file

  /** Every descriptor's stretch is its sample followed by its continuations, the first one
      of a track preceded by the continuations that came before it. */
  ghost predicate SeqFinished(file: seq<Byte>, tracks: seq<Track>, puts: seq<Put>) {
    forall t | 0 <= t < |tracks| ::
      var samples, lead := Samples(puts, t), Lead(puts, t);
      |tracks[t].smpl| == |samples| &&
      forall i | 0 <= i < |samples| :: Stored(file, tracks[t].smpl[i], Whole(samples, lead, i))
  }

  /** No two descriptors' stretches overlap. */
  ghost predicate Disjoint(tracks: seq<Track>) {
    forall t, i, u, j | 0 <= t < |tracks| && 0 <= i < |tracks[t].smpl|
                     && 0 <= u < |tracks| && 0 <= j < |tracks[u].smpl| && (t != u || i != j) ::
      Apart(tracks[t].smpl[i], tracks[u].smpl[j])
  }

  lemma SeqFinish(file: seq<Byte>, tracks: seq<Track>, writePos: nat, puts: seq<Put>, moov: seq<Byte>)
    requires writePos == |file| && Separate(tracks, |FTYP|, writePos)
    requires forall t | 0 <= t < |tracks| :: Complete(file, tracks[t], Samples(puts, t), Lead(puts, t))
    ensures SeqFinished(file + moov, tracks, puts) && Disjoint(tracks)
  {
    hide Samples, Lead, Stored, Whole;
    forall t | 0 <= t < |tracks| ensures Complete(file + moov, tracks[t], Samples(puts, t), Lead(puts, t)) {
      BufferedKeeps(file, moov, tracks[t], Samples(puts, t), Lead(puts, t));
    }
  }

  /** In sequential mode a track's first sample is stored as put exactly if no continuation
      came before it. */
  lemma LeadSpoilsFirst(file: seq<Byte>, s: Sample, samples: seq<seq<Byte>>, lead: seq<Byte>)
    requires samples != [] && Stored(file, s, Whole(samples, lead, 0))
    ensures Stored(file, s, samples[0]) <==> lead == []
  {
    if lead == [] {
      NothingBehind(samples[0]);
    }
  }
}
