/** What the demuxer of stream/minimp4.hpp makes of boxes that its muxer need not have written,
    told by their bytes alone: by size and type, version, counts and lengths. */
module Mp4Foreign {
  import opened Seqs
  import opened Wrappers
  import opened Bits
  import opened Mp4Bytes
  import opened Mp4Demux
  import opened Mp4Boxes
  import opened Mp4Walk
  import opened Mp4Descriptors
  import opened Mp4Open

  // ---------------------------------------------------------------- what may become of a box

  /** A box of this type, with its size in 32 bits. */
  predicate Of(b: seq<Byte>, kind: nat) {
    8 <= |b| < 0xffff_ffff && Word(b, 0) == |b| && Word(b, 4) == kind
  }

  /** Wherever b stands, d levels deep, the pass is over with r when it comes to b. */
  ghost predicate Ends(b: seq<Byte>, od: bool, d: nat, x: Memory, r: Option<Memory>) {
    forall file, s :: Before(file, s, b, od, d, x) ==> Walk(file, s) == r
  }

  /** b is left behind and x has become y, if it is whole; else the pass ends with x. */
  ghost predicate PassesIf(whole: bool, b: seq<Byte>, d: nat, x: Memory, y: Memory) {
    if whole then Passes(b, false, d, x, y) else Ends(b, false, d, x, Some(x))
  }

  lemma OfSized(b: seq<Byte>, kind: nat)
    requires Of(b, kind)
    ensures Sized(b) && KindOf(b) == kind && |b| < WORD - 1
  {
    hide Value32;
    assert b[..4] == b[0..4];
  }

  /** The header of a full box of any version that is understood, with any flags. */
  function VersionHead(b: seq<Byte>): Head
    requires |b| >= 12
  {
    Head(Atom(KindOf(b)), |b|, |b| - 12, 12, 12, b[8])
  }

  lemma VersionOf(b: seq<Byte>, p: nat)
    requires p + 4 <= |b|
    ensures Word(b, p) / 0x100_0000 == b[p]
  {
    assert b[p..p + 4][0] == b[p];
  }

  /** The first bytes of a full box, as the pass reads them. */
  lemma VersionRead(file: seq<Byte>, s: State, b: seq<Byte>, d: nat, x: Memory)
    requires Before(file, s, b, false, d, x) && Sized(b) && 12 <= |b| < WORD - 1
    ensures HeadAt(file, s) == PlainHead(b)
    ensures Word(file, s.pos + 8) == Word(b, 8) && Word(b, 8) / 0x100_0000 == b[8]
  {
    hide Value32, Sized, AtomHead;
    SizedHead(file, s.pos, b);
    Ahead(file, s.pos, b, 8, 12);
    VersionOf(b, 8);
  }

  lemma VersionAnnounced(b: seq<Byte>, kind: nat, x: Memory)
    requires Of(b, kind) && 12 <= |b| && MaxVersion(kind).Some? && b[8] as int <= MaxVersion(kind).value
    requires TrackTable(kind) ==> x.current.Some?
    requires kind == 0x6d65_7461 ==> !(8 <= Word(b, 8) < |b| - 12)
    ensures Announces(b, false, x, VersionHead(b))
  {
    hide Value32, MaxVersion, TrackTable, Sized, AtomHead;
    OfSized(b, kind);
    forall file, s, d | Before(file, s, b, false, d, x) ensures Headed(file, s, b, VersionHead(b)) {
      VersionRead(file, s, b, d, x);
    }
  }

  /** A box that is read and not entered, and a full box. */
  lemma Leaf(b: seq<Byte>, kind: nat, d: nat, x: Memory)
    requires Of(b, kind) && MaxVersion(kind) == None && Envelope(Atom(kind)) == None
    requires TrackPart(Atom(kind)) ==> x.current.Some?
    ensures var n, data := |b| - 8, b[8..];
            if Need(Atom(kind), data, n, 0, x) <= n then Passes(b, false, d, x, Store(Atom(kind), data, n, 0, x))
            else Ends(b, false, d, x, Some(x))
  {
    hide Value32, Passes, Announces, MaxVersion, Envelope, TrackPart, Need, Store, Sized;
    OfSized(b, kind);
    PlainAnnounced(b, x);
    var h := PlainHead(b);
    if Need(Atom(kind), b[8..], |b| - 8, 0, x) <= |b| - 8 {
      OverPasses(b, h, false, d, x);
    } else {
      Short(b, h, false, d, x);
    }
  }

  lemma FullLeaf(b: seq<Byte>, kind: nat, d: nat, x: Memory)
    requires Of(b, kind) && 12 <= |b| && MaxVersion(kind).Some? && Envelope(Atom(kind)) == None
    requires b[8] as int <= MaxVersion(kind).value && (TrackTable(kind) || TrackPart(Atom(kind)) ==> x.current.Some?)
    ensures var n, data, v := |b| - 12, b[12..], b[8];
            if Need(Atom(kind), data, n, v, x) <= n then Passes(b, false, d, x, Store(Atom(kind), data, n, v, x))
            else Ends(b, false, d, x, Some(x))
  {
    hide Value32, Passes, Announces, MaxVersion, TrackTable, TrackPart, Need, Store, Sized;
    OfSized(b, kind);
    VersionAnnounced(b, kind, x);
    var h := VersionHead(b);
    if Need(Atom(kind), b[12..], |b| - 12, b[8], x) <= |b| - 12 {
      OverPasses(b, h, false, d, x);
    } else {
      Short(b, h, false, d, x);
    }
  }

  lemma Short(b: seq<Byte>, h: Head, od: bool, d: nat, x: Memory)
    requires Announces(b, od, x, h) && h.payload == |b| - h.bytes && (TrackPart(h.name) ==> x.current.Some?)
    requires Need(h.name, b[h.bytes..], h.payload, h.version, x) > h.payload
    ensures Ends(b, od, d, x, Some(x))
  {
    hide Before, Walk, Headed, Need, TrackPart;
    forall file, s | Before(file, s, b, od, d, x) ensures Walk(file, s) == Some(x) {
      AnnouncedAt(file, s, b, od, d, x, h);
      Stops(file, s, b, h, od, d, x);
    }
  }

  lemma Stops(file: seq<Byte>, s: State, b: seq<Byte>, h: Head, od: bool, d: nat, x: Memory)
    requires Before(file, s, b, od, d, x) && Headed(file, s, b, h) && (TrackPart(h.name) ==> x.current.Some?)
    requires Need(h.name, b[h.bytes..], h.payload, h.version, x) > h.payload
    ensures Walk(file, s) == Some(x)
  {
    hide Step, Need, Used, Store, TrackPart, Lower, Popped, Envelope, Available;
    Placed(file, s, b, h, od, d, x);
  }

  // ---------------------------------------------------------------- sample tables

  /** stts, ISO/IEC 14496-12 section 8.6.1.2: found with all its entries, whatever is behind them. */
  lemma SttsFound(b: seq<Byte>, d: nat, done: seq<Found>, f: Found)
    requires Of(b, 0x7374_7473) && |b| >= 12 && b[8] == 0
    ensures PassesIf(|b| >= 16 && 16 + 8 * Word(b, 12) <= |b|, b, d, Reading(done, f),
                     Reading(done, f.(stts := Some(b[12..]))))
  {
    hide Of, Passes, Ends, Word;
    FullLeaf(b, 0x7374_7473, d, Reading(done, f));
    Shifted(b);
  }

  /** The first words behind version and flags. */
  lemma Shifted(b: seq<Byte>)
    requires |b| >= 12
    ensures |b| >= 16 ==> Word(b[12..], 0) == Word(b, 12)
    ensures |b| >= 20 ==> Word(b[12..], 4) == Word(b, 16)
  {
    hide Value32;
    if |b| >= 16 {
      assert b[12..][0..4] == b[12..16];
    }
    if |b| >= 20 {
      assert b[12..][4..8] == b[16..20];
    }
  }

  lemma StscFound(b: seq<Byte>, d: nat, done: seq<Found>, f: Found)
    requires Of(b, 0x7374_7363) && |b| >= 12 && b[8] == 0
    ensures PassesIf(|b| >= 16 && 12 + 12 * Word(b, 12) <= |b|, b, d, Reading(done, f),
                     Reading(done, f.(stsc := Some(b[12..]))))
  {
    hide Of, Passes, Ends, Word;
    FullLeaf(b, 0x7374_7363, d, Reading(done, f));
    Shifted(b);
  }

  /** stsz: a size for all samples, or one for each. */
  lemma StszFound(b: seq<Byte>, d: nat, done: seq<Found>, f: Found)
    requires Of(b, 0x7374_737a) && |b| >= 12 && b[8] == 0
    ensures PassesIf(|b| >= 20 && (Word(b, 12) == 0 ==> 20 + 4 * Word(b, 16) <= |b|), b, d, Reading(done, f),
                     Reading(done, f.(stsz := Some(b[12..]))))
  {
    hide Of, Passes, Ends, Word;
    FullLeaf(b, 0x7374_737a, d, Reading(done, f));
    Shifted(b);
  }

  lemma StcoFound(b: seq<Byte>, d: nat, done: seq<Found>, f: Found)
    requires Of(b, 0x7374_636f) && |b| >= 12 && b[8] == 0
    ensures PassesIf(|b| >= 16 && 16 + 4 * Word(b, 12) <= |b|, b, d, Reading(done, f),
                     Reading(done, f.(offsets := Some(b[12..]), wide := false)))
  {
    hide Of, Passes, Ends, Word;
    FullLeaf(b, 0x7374_636f, d, Reading(done, f));
    Shifted(b);
  }

  lemma Co64Found(b: seq<Byte>, d: nat, done: seq<Found>, f: Found)
    requires Of(b, 0x636f_3634) && |b| >= 12 && b[8] == 0
    ensures PassesIf(|b| >= 16 && 16 + 8 * Word(b, 12) <= |b|, b, d, Reading(done, f),
                     Reading(done, f.(offsets := Some(b[12..]), wide := true)))
  {
    hide Of, Passes, Ends, Word;
    FullLeaf(b, 0x636f_3634, d, Reading(done, f));
    Shifted(b);
  }

  /** ctts adds nothing, but must be whole. */
  lemma CttsPassed(b: seq<Byte>, d: nat, x: Memory)
    requires Of(b, 0x6374_7473) && |b| >= 12 && b[8] == 0
    ensures PassesIf(|b| >= 16 && 16 + 8 * Word(b, 12) <= |b|, b, d, x, x)
  {
    hide Of, Passes, Ends, Word;
    FullLeaf(b, 0x6374_7473, d, x);
    Shifted(b);
  }

  // ---------------------------------------------------------------- headers

  /** mdhd, section 8.4.2: version 1 has times of 64 bits and with them twelve bytes more. */
  lemma MdhdPassed(b: seq<Byte>, d: nat, x: Memory)
    requires Of(b, 0x6d64_6864) && |b| >= 12 && b[8] <= 1 && x.current.Some?
    ensures PassesIf(|b| >= if b[8] == 1 then 42 else 30, b, d, x, x)
  {
    hide Of, Passes, Ends, Word;
    FullLeaf(b, 0x6d64_6864, d, x);
  }

  /** mvhd, section 8.2.2. */
  lemma MvhdPassed(b: seq<Byte>, d: nat, x: Memory)
    requires Of(b, 0x6d76_6864) && |b| >= 12 && b[8] <= 1
    ensures PassesIf(|b| >= if b[8] == 1 then 40 else 28, b, d, x, x)
  {
    hide Of, Passes, Ends, Word;
    FullLeaf(b, 0x6d76_6864, d, x);
  }

  /** hdlr, of a track or of a meta box. */
  lemma HdlrPassed(b: seq<Byte>, d: nat, x: Memory)
    requires Of(b, 0x6864_6c72) && |b| >= 12 && b[8] == 0
    ensures PassesIf(x.current.Some? ==> |b| >= 20, b, d, x, x)
  {
    hide Of, Passes, Ends, Word;
    FullLeaf(b, 0x6864_6c72, d, x);
  }

  lemma BtrtPassed(b: seq<Byte>, d: nat, x: Memory)
    requires Of(b, 0x6274_7274) && x.current.Some?
    ensures PassesIf(|b| >= 20, b, d, x, x)
  {
    hide Of, Passes, Ends, Word;
    Leaf(b, 0x6274_7274, d, x);
  }

  /** A box of any other type is passed over, whatever is in it. */
  lemma OthersPassed(b: seq<Byte>, d: nat, x: Memory)
    requires (Sized(b) && |b| < WORD - 1) || SizedWide(b)
    requires KindOf(b) !in {0x6d64_6864, 0x6d76_6864, 0x6864_6c72, 0x6d65_7461, 0x7374_7473, 0x6374_7473, 0x7374_7a32,
                            0x7374_737a, 0x7374_7363, 0x7374_636f, 0x636f_3634, 0x7374_7364, 0x6573_6473, 0x7472_616b,
                            0x6d6f_6f76, 0x6d64_6961, 0x7472_6566, 0x6d69_6e66, 0x6469_6e66, 0x7374_626c, 0x6d70_3461,
                            0x6d70_3473, 0x6d70_3476, 0x6176_6331, 0x6876_6331, 0x7564_7461, 0x696c_7374, 0x6176_6343,
                            0x6274_7274}
    ensures Passes(b, false, d, x, x)
  {
    hide Passes, Announces, Value32;
    var wide := SizedWide(b);
    if !wide {
      PlainAnnounced(b, x);
      OverPasses(b, PlainHead(b), false, d, x);
    } else {
      WideAnnounced(b, x);
      OverPasses(b, WideHead(b), false, d, x);
    }
  }

  // ---------------------------------------------------------------- boxes that are entered

  /** b, with n bytes in front of the boxes inside, is entered with y. */
  ghost predicate Holds(b: seq<Byte>, n: nat, od: bool, d: nat, x: Memory, y: Memory) {
    HoldsIn(b, false, n, od, d, x, y)
  }

  /** The same among boxes or among descriptors. */
  ghost predicate HoldsIn(b: seq<Byte>, among: bool, n: nat, od: bool, d: nat, x: Memory, y: Memory) {
    if d + 1 >= 64 then Ends(b, among, d, x, None)
    else forall z :: Fills(if n <= |b| then b[n..] else [], od, d + 1, y, z) ==> Passes(b, among, d, x, z)
  }

  lemma Deep(b: seq<Byte>, h: Head, od: bool, d: nat, x: Memory)
    requires Announces(b, od, x, h) && Readable(h, b[h.bytes..], x) && Envelope(h.name).Some? && d + 1 >= 64
    ensures Ends(b, od, d, x, None)
  {
    hide Before, Walk, Headed, Readable, Envelope;
    forall file, s | Before(file, s, b, od, d, x) ensures Walk(file, s) == None {
      AnnouncedAt(file, s, b, od, d, x, h);
      TooDeep(file, s, b, h, od, d, x);
    }
  }

  lemma TooDeep(file: seq<Byte>, s: State, b: seq<Byte>, h: Head, od: bool, d: nat, x: Memory)
    requires Before(file, s, b, od, d, x) && Headed(file, s, b, h) && Readable(h, b[h.bytes..], x)
    requires Envelope(h.name).Some? && d + 1 >= 64
    ensures Walk(file, s) == None
  {
    hide Step, Need, Used, Store, TrackPart, Popped, Envelope, Available;
    Placed(file, s, b, h, od, d, x);
  }

  lemma Inside(b: seq<Byte>, h: Head, od: bool, d: nat, x: Memory)
    requires Announces(b, od, x, h) && Envelope(h.name).Some? && Readable(h, b[h.bytes..], x)
    ensures var data := b[h.bytes..];
            if d + 1 >= 64 then Ends(b, od, d, x, None)
            else forall z :: Fills(data[Front(h, data, x)..], Envelope(h.name).value, d + 1, Remembered(h, data, x), z)
                             ==> Passes(b, od, d, x, z)
  {
    var data := b[h.bytes..];
    hide Announces, Envelope, Readable, Front, Remembered, Passes, Fills, Ends;
    if d + 1 >= 64 {
      Deep(b, h, od, d, x);
    } else {
      forall z | Fills(data[Front(h, data, x)..], Envelope(h.name).value, d + 1, Remembered(h, data, x), z)
        ensures Passes(b, od, d, x, z) {
        InPasses(b, h, od, d, x, z);
      }
    }
  }

  lemma Cut(b: seq<Byte>, m: nat, n: nat)
    requires m <= |b| && m + n <= |b|
    ensures b[m..][n..] == b[m + n..]
  {}

  /** The boxes that only hold others. */
  lemma WrappersEntered(b: seq<Byte>, kind: nat, d: nat, x: Memory)
    requires Of(b, kind)
    requires kind in {0x6d6f_6f76, 0x6d64_6961, 0x7472_6566, 0x6d69_6e66, 0x6469_6e66, 0x7374_626c, 0x6876_6331,
                      0x7564_7461, 0x696c_7374}
    ensures Holds(b, 8, false, d, x, x)
  {
    hide Value32, Sized, Passes, Fills, Announces, Ends;
    OfSized(b, kind);
    PlainAnnounced(b, x);
    Inside(b, PlainHead(b), false, d, x);
    Cut(b, 8, 0);
  }

  /** trak: the next track, of which nothing is known yet. */
  lemma TrakEntered(b: seq<Byte>, d: nat, x: Memory)
    requires Of(b, 0x7472_616b)
    ensures Holds(b, 8, false, d, x,
                  Memory(if x.current.Some? then x.done + [x.current.value] else x.done,
                         Some(Found([], None, None, None, None, false))))
  {
    hide Value32, Sized, Passes, Fills, Announces, Ends;
    OfSized(b, 0x7472_616b);
    PlainAnnounced(b, x);
    Inside(b, PlainHead(b), false, d, x);
    Cut(b, 8, 0);
  }

  /** Sample entries: mp4a has 28 bytes of fields, mp4v and avc1 have 78, mp4s has 8. Of the
      fields of mp4v and avc1 the first 28 must be there. */
  lemma EntriesEntered(b: seq<Byte>, kind: nat, n: nat, d: nat, x: Memory)
    requires Of(b, kind) && x.current.Some?
    requires || (kind == 0x6d70_3461 && n == 28) || (kind == 0x6d70_3476 && n == 78) || (kind == 0x6176_6331 && n == 78)
             || (kind == 0x6d70_3473 && n == 8)
    ensures if kind != 0x6d70_3473 && |b| < 36 then Ends(b, false, d, x, Some(x)) else Holds(b, 8 + n, false, d, x, x)
  {
    hide Value32, Sized, Passes, Fills, Announces, Ends;
    OfSized(b, kind);
    PlainAnnounced(b, x);
    if kind != 0x6d70_3473 && |b| < 36 {
      Short(b, PlainHead(b), false, d, x);
    } else {
      Inside(b, PlainHead(b), false, d, x);
      Cut(b, 8, Min(|b| - 8, n));
    }
  }

  /** stsd: version, flags and a number of entries that is not looked at. */
  lemma StsdEntered(b: seq<Byte>, d: nat, x: Memory)
    requires Of(b, 0x7374_7364) && |b| >= 12 && b[8] == 0
    ensures Holds(b, 16, false, d, x, x)
  {
    hide Value32, Sized, Passes, Fills, Announces, Ends;
    OfSized(b, 0x7374_7364);
    VersionAnnounced(b, 0x7374_7364, x);
    Inside(b, VersionHead(b), false, d, x);
    Cut(b, 12, Min(|b| - 12, 4));
  }

  /** esds: what is in it are descriptors. */
  lemma EsdsEntered(b: seq<Byte>, d: nat, x: Memory)
    requires Of(b, 0x6573_6473) && |b| >= 12 && b[8] == 0 && x.current.Some?
    ensures Holds(b, 12, true, d, x, x)
  {
    hide Value32, Sized, Passes, Fills, Announces, Ends;
    OfSized(b, 0x6573_6473);
    VersionAnnounced(b, 0x6573_6473, x);
    Inside(b, VersionHead(b), false, d, x);
    Cut(b, 12, 0);
  }

  /** meta: no track is read any more; one whose fifth word could be the size of a box in it
      has no version, as written by Android. */
  lemma MetaEntered(b: seq<Byte>, d: nat, x: Memory)
    requires Of(b, 0x6d65_7461) && |b| >= 12 && b[8] == 0 && !(8 <= Word(b, 8) < |b| - 12)
    ensures Holds(b, 12, false, d, x, Memory(if x.current.Some? then x.done + [x.current.value] else x.done, None))
  {
    hide Value32, Sized, Passes, Fills, Announces, Ends;
    OfSized(b, 0x6d65_7461);
    VersionAnnounced(b, 0x6d65_7461, x);
    Inside(b, VersionHead(b), false, d, x);
    Cut(b, 12, 0);
  }

  // ---------------------------------------------------------------- boxes that are refused

  /** A full box of a version that is not understood ends the pass with an error, inside a box. */
  lemma VersionRefused(b: seq<Byte>, kind: nat, d: nat, x: Memory)
    requires Of(b, kind) && |b| >= 12 && d > 0
    requires || (kind in {0x6d64_6864, 0x6d76_6864} && b[8] > 1)
             || (kind in {0x6864_6c72, 0x7374_7473, 0x6374_7473, 0x7374_7a32, 0x7374_737a, 0x7374_7363, 0x7374_636f,
                          0x636f_3634, 0x7374_7364, 0x6573_6473} && b[8] > 0)
             || (kind == 0x6d65_7461 && b[8] > 0 && Word(b, 8) >= |b| - 12)
    ensures Ends(b, false, d, x, None)
  {
    hide Value32, Sized, AtomHead, Walk, TrackTable;
    OfSized(b, kind);
    forall file, s | Before(file, s, b, false, d, x) ensures Walk(file, s) == None {
      VersionRead(file, s, b, d, x);
      Broken(file, s);
    }
  }

  lemma Broken(file: seq<Byte>, s: State)
    requires s.pos < |file| && Step(file, s) == Fail
    ensures Walk(file, s) == None
  {}

  /** Tables, media headers and descriptors without a track around them are errors, inside a box. */
  lemma TrackMissing(b: seq<Byte>, kind: nat, d: nat, x: Memory)
    requires Of(b, kind) && x.current.None? && d > 0
    requires || kind in {0x6d70_3461, 0x6d70_3473, 0x6d70_3476, 0x6176_6331, 0x6176_6343, 0x6274_7274}
             || (|b| >= 12 && b[8] == 0
                 && kind in {0x6d64_6864, 0x7374_7473, 0x7374_7a32, 0x7374_737a, 0x7374_7363, 0x7374_636f, 0x636f_3634,
                             0x6573_6473})
    ensures Ends(b, false, d, x, None)
  {
    hide Value32, Sized, AtomHead, Walk;
    OfSized(b, kind);
    forall file, s | Before(file, s, b, false, d, x) ensures Walk(file, s) == None {
      if MaxVersion(kind).Some? {
        VersionRead(file, s, b, d, x);
      } else {
        SizedHead(file, s.pos, b);
      }
      Broken(file, s);
    }
  }

  // ---------------------------------------------------------------- AVC records

  /** avcC, section 5.2.4.1 of ISO/IEC 14496-15: whatever profile and level say, and whatever is
      behind the lists, the two lists are kept with their numbers. */
  lemma AvcFound(b: seq<Byte>, front: seq<Byte>, sps: seq<seq<Byte>>, pps: seq<seq<Byte>>, rest: seq<Byte>,
                 d: nat, done: seq<Found>, f: Found)
    requires Of(b, 0x6176_6343) && |front| == 6 && front[5] as int % 32 == |sps| && |pps| <= 255
    requires Nals(sps) && Nals(pps) && b[8..] == front + (ListOf(sps) + ([|pps|] + (ListOf(pps) + rest)))
    ensures Passes(b, false, d, Reading(done, f),
                   Reading(done, f.(dsi := [|sps|] + (ListOf(sps) + ([|pps|] + ListOf(pps))))))
  {
    RecordRead(b[8..], front, sps, pps, rest);
    hide Of, Passes, Ends, ListOf, Nals, AvcEnd;
    Leaf(b, 0x6176_6343, d, Reading(done, f));
  }

  lemma RecordRead(data: seq<Byte>, front: seq<Byte>, sps: seq<seq<Byte>>, pps: seq<seq<Byte>>, rest: seq<Byte>)
    requires |front| == 6 && front[5] as int % 32 == |sps| && |pps| <= 255
    requires Nals(sps) && Nals(pps) && data == front + (ListOf(sps) + ([|pps|] + (ListOf(pps) + rest)))
    ensures AvcEnd(data).Some? && data[5] == front[5]
    ensures data[6..AvcEnd(data).value] == ListOf(sps) + ([|pps|] + ListOf(pps))
  {
    hide ListOf, Nals, ListEnd;
    var a, c := ListOf(sps), ListOf(pps);
    var behind := [|pps|] + (c + rest);
    Halves(front, a + behind);
    ListEndOf(data, 6, sps, behind);
    var e := 6 + |a|;
    Halves(a, behind);
    assert data[e..] == behind;
    assert data[e] == behind[0];
    Halves([|pps|], c + rest);
    assert data[e + 1..] == c + rest;
    ListEndOf(data, e + 1, pps, rest);
    var end := e + 1 + |c|;
    assert data[6..end] == a + ([|pps|] + c);
  }

  // ---------------------------------------------------------------- descriptors

  /** The lowest seven bits. */
  function Low(b: Byte): (v: nat)
    ensures v < 128 && (b < 128 ==> v == b as nat)
  {
    b as nat % 128
  }

  /** A descriptor whose length has n bytes, seven bits of it in each: section 8.3.3 of
      ISO/IEC 14496-1. */
  predicate Described(b: seq<Byte>, tag: Byte, n: nat) {
    && 1 <= n <= 4 && |b| > n && b[0] == tag && b[n] < 128 && (forall k | 1 <= k < n :: b[k] >= 128)
    && |b| == 1 + n + match n
                      case 1 => Low(b[1])
                      case 2 => Low(b[1]) * 0x80 + Low(b[2])
                      case 3 => Low(b[1]) * 0x4000 + Low(b[2]) * 0x80 + Low(b[3])
                      case _ => Low(b[1]) * 0x20_0000 + Low(b[2]) * 0x4000 + Low(b[3]) * 0x80 + Low(b[4])
  }

  function DescriptorHead(b: seq<Byte>, n: nat): Head
    requires 0 < n < |b|
  {
    Head(Tag(b[0]), |b|, |b| - 1 - n, 1 + n, 1 + n, 0)
  }

  lemma OneMore(file: seq<Byte>, p: nat, value: nat)
    requires p < |file| && file[p] >= 128 && value < 0x1000_0000
    ensures TagLength(file, p, value) == TagLength(file, p + 1, value * 128 + Low(file[p]))
  {}

  lemma LastOne(file: seq<Byte>, p: nat, value: nat)
    requires p < |file| && file[p] < 128 && value < 0x1000_0000
    ensures TagLength(file, p, value) == Some(LengthField(value * 128 + Low(file[p]), p + 1))
  {}

  lemma LengthRest(file: seq<Byte>, q: nat, value: nat)
    requires q + 2 <= |file| && file[q] >= 128 && file[q + 1] < 128 && value < 0x20_0000
    ensures TagLength(file, q, value)
         == Some(LengthField(value * 0x4000 + Low(file[q]) * 0x80 + Low(file[q + 1]), q + 2))
  {
    hide TagLength, Low;
    OneMore(file, q, value);
    LastOne(file, q + 1, value * 128 + Low(file[q]));
  }

  lemma LengthAt(file: seq<Byte>, q: nat, b: seq<Byte>, tag: Byte, n: nat)
    requires Described(b, tag, n) && q + n <= |file| && forall k | 1 <= k <= n :: file[q + k - 1] == b[k]
    ensures TagLength(file, q, 0) == Some(LengthField(|b| - 1 - n, q + n))
  {
    hide TagLength, Low;
    assert n >= 1 ==> file[q + 1 - 1] == b[1];
    assert n >= 2 ==> file[q + 2 - 1] == b[2];
    assert n >= 3 ==> file[q + 3 - 1] == b[3];
    assert n >= 4 ==> file[q + 4 - 1] == b[4];
    if n == 1 {
      LastOne(file, q, 0);
    } else if n == 2 {
      LengthRest(file, q, 0);
    } else {
      OneMore(file, q, 0);
      if n == 3 {
        LengthRest(file, q + 1, Low(b[1]));
      } else {
        OneMore(file, q + 1, Low(b[1]));
        LengthRest(file, q + 2, Low(b[1]) * 0x80 + Low(b[2]));
      }
    }
  }

  lemma LengthIs(file: seq<Byte>, p: nat, b: seq<Byte>, tag: Byte, n: nat)
    requires Described(b, tag, n) && p + |b| <= |file| && file[p..p + |b|] == b
    ensures TagHead(file, p) == DescriptorHead(b, n)
  {
    hide TagLength, Described;
    Inhabited(b, tag, n);
    DescribedSize(b, tag, n);
    forall k | 0 <= k <= n ensures file[p + k] == b[k] {
      assert file[p..p + |b|][k] == b[k];
    }
    LengthAt(file, p + 1, b, tag, n);
    assert file[p] == file[p + 0] == tag;
  }

  lemma DescribedSize(b: seq<Byte>, tag: Byte, n: nat)
    requires Described(b, tag, n)
    ensures |b| < WORD
  {
    hide Low;
  }

  lemma DescriptorAnnounced(b: seq<Byte>, tag: Byte, n: nat, x: Memory)
    requires Described(b, tag, n)
    ensures Announces(b, true, x, DescriptorHead(b, n))
  {
    hide FullHead, TagHead, Described;
    assert 0 < n < |b| by { Inhabited(b, tag, n); }
    forall file, s, d | Before(file, s, b, true, d, x) ensures Headed(file, s, b, DescriptorHead(b, n)) {
      LengthIs(file, s.pos, b, tag, n);
    }
  }

  lemma Inhabited(b: seq<Byte>, tag: Byte, n: nat)
    requires Described(b, tag, n)
    ensures 1 <= n <= 4 && 0 < n < |b| && b[0] == tag
  {}

  /** The specific info: the first one of a track is its decoder configuration. */
  lemma InfoFound(b: seq<Byte>, n: nat, d: nat, done: seq<Found>, f: Found)
    requires Described(b, 5, n) && |b| > 1 + n && d + 1 < 64 && f.dsi == []
    ensures Passes(b, true, d, Reading(done, f), Reading(done, f.(dsi := b[1 + n..])))
  {
    hide Described, Passes, Fills, Announces;
    Inhabited(b, 5, n);
    var x, y := Reading(done, f), Reading(done, f.(dsi := b[1 + n..]));
    DescriptorAnnounced(b, 5, n, x);
    NoFills(true, d + 1, y);
    var data := b[1 + n..];
    assert data[|data|..] == [];
    InPasses(b, DescriptorHead(b, n), true, d, x, y);
  }

  /** The decoder configuration: 13 bytes, and the descriptors in it behind them. */
  lemma ConfigEntered(b: seq<Byte>, n: nat, d: nat, x: Memory)
    requires Described(b, 4, n) && |b| >= 14 + n && x.current.Some?
    ensures HoldsIn(b, true, 14 + n, true, d, x, x)
  {
    hide Described, Passes, Fills, Announces, Ends;
    Inhabited(b, 4, n);
    DescriptorAnnounced(b, 4, n, x);
    Inside(b, DescriptorHead(b, n), true, d, x);
    Cut(b, 1 + n, 13);
  }

  /** Without these bytes the pass ends, and so it does without the three that an ES descriptor
      begins with. */
  lemma FieldsMissing(b: seq<Byte>, tag: Byte, n: nat, d: nat, x: Memory)
    requires Described(b, tag, n) && x.current.Some?
    requires (tag == 4 && |b| < 14 + n) || (tag == 3 && |b| < 4 + n)
    ensures Ends(b, true, d, x, Some(x))
  {
    hide Described, Announces, Ends;
    Inhabited(b, tag, n);
    DescriptorAnnounced(b, tag, n, x);
    Short(b, DescriptorHead(b, n), true, d, x);
  }

  /** Behind the first configuration another one is not kept, but entered. */
  lemma SecondInfo(b: seq<Byte>, n: nat, d: nat, done: seq<Found>, f: Found)
    requires Described(b, 5, n) && f.dsi != []
    ensures HoldsIn(b, true, 1 + n, true, d, Reading(done, f), Reading(done, f))
  {
    hide Described, Passes, Fills, Announces, Ends;
    Inhabited(b, 5, n);
    DescriptorAnnounced(b, 5, n, Reading(done, f));
    Inside(b, DescriptorHead(b, n), true, d, Reading(done, f));
    Cut(b, 1 + n, 0);
  }

  /** The fields of an ES descriptor, section 7.2.6.5: of the id and the flags, and then the id of
      another stream, a URL behind its length, and the id of a clock, each if its flag is set. */
  predicate EsFront(front: seq<Byte>) {
    |front| >= 3 &&
    var a := if front[2] / 128 % 2 == 1 then 5 else 3;
    var ocr := if front[2] / 32 % 2 == 1 then 2 else 0;
    if front[2] / 64 % 2 == 1 then |front| > a && |front| == a + 1 + front[a] as nat + ocr else |front| == a + ocr
  }

  lemma EsEntered(b: seq<Byte>, n: nat, front: seq<Byte>, inner: seq<Byte>, d: nat, x: Memory)
    requires Described(b, 3, n) && b[1 + n..] == front + inner && EsFront(front)
    ensures HoldsIn(b, true, 1 + n + |front|, true, d, x, x)
  {
    hide Described, Passes, Fills, Announces, Ends;
    Inhabited(b, 3, n);
    DescriptorAnnounced(b, 3, n, x);
    var h, data := DescriptorHead(b, n), b[1 + n..];
    FrontIs(front, inner);
    assert Readable(h, data, x) && Front(h, data, x) == |front|;
    Inside(b, h, true, d, x);
    Cut(b, 1 + n, |front|);
  }

  lemma FrontIs(front: seq<Byte>, inner: seq<Byte>)
    requires EsFront(front)
    ensures EsFields(front + inner, |front + inner|).0 <= |front + inner|
    ensures EsFields(front + inner, |front + inner|).1 == |front|
  {}

  /** Any other descriptor is passed over. */
  lemma OtherTagPassed(b: seq<Byte>, tag: Byte, n: nat, d: nat, x: Memory)
    requires Described(b, tag, n) && tag !in {3, 4, 5}
    ensures Passes(b, true, d, x, x)
  {
    hide Described, Passes, Announces;
    Inhabited(b, tag, n);
    DescriptorAnnounced(b, tag, n, x);
    OverPasses(b, DescriptorHead(b, n), true, d, x);
  }
}
