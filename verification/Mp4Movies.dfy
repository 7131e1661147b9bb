/** Whole files that the muxer of stream/minimp4.hpp need not have written, and what its demuxer
    finds in them: sizes that reach to the end of the file, several tracks, tables in any order,
    and an MPEG-4 Part 2 track from the file down to its decoder configuration. */
module Mp4Movies {
  import opened Seqs
  import opened Wrappers
  import opened Bits
  import opened Mp4Bytes
  import opened Mp4Boxes
  import opened Mp4Demux
  import opened Mp4Walk
  import opened Mp4Descriptors
  import opened Mp4Open
  import opened Mp4Reach
  import opened Mp4File
  import opened Mp4Foreign

  // ---------------------------------------------------------------- sizes

  /** No box has 2 to 7 bytes, nor one with a 64-bit size fewer than 16: the pass ends, with an
      error inside a box. */
  lemma BadSize(file: seq<Byte>, s: State)
    requires s.pos + 4 <= |file| && !InDescriptors(s.stack)
    requires || 2 <= Word(file, s.pos) < 8
             || (s.pos + 16 <= |file| && Word(file, s.pos) == 1
                 && Word(file, s.pos + 8) == 0 && Word(file, s.pos + 12) < 16)
    ensures Walk(file, s) == if s.stack == [] then Some(s.mem) else None
  {
    hide Value32;
  }

  /** Fewer than eight bytes at the end of the file are no box. */
  lemma TooFew(file: seq<Byte>, s: State)
    requires |file| < s.pos + 8 && s.stack == []
    ensures Walk(file, s) == Some(s.mem)
  {
    hide Value32;
  }

  /** A size of 0 or 2^32 - 1 at the top level: the box is the rest of the file. */
  lemma RestOfFile(file: seq<Byte>, s: State)
    requires s.pos + 8 <= |file| < FILE_LIMIT && s.stack == [] && Word(file, s.pos) in {0, 0xffff_ffff}
    requires Unknown(Word(file, s.pos + 4))
    ensures Walk(file, s) == Some(s.mem)
  {
    hide Value32;
    var h := AtomHead(file, s.pos);
    assert h == Head(Atom(Word(file, s.pos + 4)), WORD64 - 1, WORD64 - 9, 8, 8, 0);
    UnknownStored(Word(file, s.pos + 4), [], s.mem);
    var next := State(s.pos + 8 + (WORD64 - 9), [], s.mem);
    assert Step(file, s) == Go(next);
    Goes(file, s, next);
  }

  /** A moov box of such a size holds the rest of the file. */
  lemma RestInMoov(file: seq<Byte>, s: State)
    requires s.pos + 8 <= |file| && s.stack == [] && Word(file, s.pos) in {0, 0xffff_ffff}
    requires Word(file, s.pos + 4) == 0x6d6f_6f76
    ensures Walk(file, s) == Walk(file, State(s.pos + 8, [Level(0xffff_ffff_ffff_fff7, false)], s.mem))
  {
    hide Step, AtomHead, Word, Enter, MaxVersion;
    var next := State(s.pos + 8, [Level(0xffff_ffff_ffff_fff7, false)], s.mem);
    LargeHead(file, s.pos);
    assert MaxVersion(0x6d6f_6f76) == None by { MoovPlain(); }
    AtomTaken(file, s);
    EnterMoov(file, s.pos + 8, AtomHead(file, s.pos), s.mem);
    assert Step(file, s) == Go(next);
    Goes(file, s, next);
  }

  lemma MoovPlain()
    ensures MaxVersion(0x6d6f_6f76) == None
  {}

  lemma EnterMoov(file: seq<Byte>, p: nat, h: Head, mem: Memory)
    requires p <= |file| && h.Head? && h.name == Atom(0x6d6f_6f76) && h.payload == 0xffff_ffff_ffff_fff7
    ensures Enter(file, p, [], h, mem) == Go(State(p, [Level(0xffff_ffff_ffff_fff7, false)], mem))
  {
    hide Available;
    assert [] + [Level(0xffff_ffff_ffff_fff7, false)] == [Level(0xffff_ffff_ffff_fff7, false)];
  }

  /** A box without a version is cut to what is left around it and then entered or passed. */
  lemma AtomTaken(file: seq<Byte>, s: State)
    requires s.pos + 8 <= |file| && !InDescriptors(s.stack) && AtomHead(file, s.pos).Head?
    requires AtomHead(file, s.pos).name == Atom(Word(file, s.pos + 4)) && MaxVersion(Word(file, s.pos + 4)) == None
    ensures var h := AtomHead(file, s.pos);
            && s.pos + h.bytes <= |file|
            && Step(file, s) == Enter(file, s.pos + h.bytes, Lower(s.stack, h.size), Fitted(s.stack, h), s.mem)
  {
    hide AtomHead, Word, Enter, Lower, Fitted, MaxVersion;
  }

  /** What such a moov box holds is found as in any other. */
  lemma OpenMoov(front: seq<seq<Byte>>, size: seq<Byte>, inner: seq<Byte>, y: Memory)
    requires (forall b | b in front :: Skipped(b)) && size in {[0, 0, 0, 0], [255, 255, 255, 255]}
    requires |Cat(front) + (size + [0x6d, 0x6f, 0x6f, 0x76] + inner)| < FILE_LIMIT && inner != []
    requires Passes(inner, false, 1, NONE, y)
    ensures Opened(Cat(front) + (size + [0x6d, 0x6f, 0x6f, 0x76] + inner))
            == if TracksOf(y) == [] then None else Some(TracksOf(y))
  {
    hide Passes, Skipped, Cat, Walk, Value32;
    var moov: seq<Byte> := size + [0x6d, 0x6f, 0x6f, 0x76] + inner;
    var file, p := Cat(front) + moov, |Cat(front)|;
    FrontPasses(front, NONE);
    Halves(Cat(front), moov);
    assert Before(file, START, Cat(front), false, 0, NONE) by { assert file[0..p] == Cat(front); }
    PassesAt(file, START, Cat(front), false, 0, NONE, NONE);
    var s := State(p, [], NONE);
    assert file[p..p + 4] == size && file[p + 4..p + 8] == [0x6d, 0x6f, 0x6f, 0x76];
    OpenSize(size);
    RestInMoov(file, s);
    var t := State(p + 8, [Level(0xffff_ffff_ffff_fff7, false)], NONE);
    assert file[p + 8..p + 8 + |inner|] == inner;
    PassesAt(file, t, inner, false, 1, NONE, y);
    Over(file, After(t, |inner|, y));
  }

  lemma OpenSize(size: seq<Byte>)
    requires size in {[0, 0, 0, 0], [255, 255, 255, 255]}
    ensures Value32(size) in {0, 0xffff_ffff} && Value32([0x6d, 0x6f, 0x6f, 0x76]) == 0x6d6f_6f76
  {}

  lemma Over(file: seq<Byte>, s: State)
    requires s.pos >= |file|
    ensures Walk(file, s) == Some(s.mem)
  {}

  /** Inside a box, a box of more bytes than are left is all that is left, and nothing is read of it. */
  lemma CutToFit(file: seq<Byte>, s: State)
    requires s.pos + 8 <= |file| && s.stack != [] && !InDescriptors(s.stack) && 8 <= Left(s.stack) < WORD64
    requires MaxVersion(Word(file, s.pos + 4)) == None
    requires Word(file, s.pos) == 0 || Word(file, s.pos) > Left(s.stack)
    requires Left(s.stack) < WORD64 - 1
    ensures Walk(file, s) == Walk(file, After(s, Left(s.stack), s.mem))
  {
    hide Step, Word, Popped, Lower, MaxVersion, AtomHead, Enter, Walk;
    var next, h := After(s, Left(s.stack), s.mem), AtomHead(file, s.pos);
    LargeHead(file, s.pos);
    LoweredAway(s.stack, h.size);
    Remains(Left(s.stack) - 8);
    AtomTaken(file, s);
    EnterNothing(file, s.pos + 8, Lower(s.stack, h.size), Fitted(s.stack, h), s.mem);
    assert Step(file, s) == Go(next);
    Goes(file, s, next);
  }

  lemma EnterNothing(file: seq<Byte>, p: nat, stack: seq<Level>, h: Head, mem: Memory)
    requires p <= |file| && h.Head? && h.name == NoName
    ensures Enter(file, p, stack, h, mem) == Go(State(p + h.payload, Popped(stack), mem))
  {
    hide Available, Popped;
  }

  lemma LargeHead(file: seq<Byte>, p: nat)
    requires p + 8 <= |file| && (Word(file, p) == 0 || Word(file, p) >= 8)
    ensures var h := AtomHead(file, p);
            && h.Head? && h.name == Atom(Word(file, p + 4)) && h.bytes == h.counted == 8 && h.version == 0
            && h.payload == h.size - 8
            && h.size == if Word(file, p) in {0, 0xffff_ffff} then WORD64 - 1 else Word(file, p)
  {
    hide Value32;
  }

  lemma LoweredAway(stack: seq<Level>, n: nat)
    requires stack != [] && n > Left(stack)
    ensures Lower(stack, n) == Lower(stack, Left(stack))
  {}

  lemma Remains(n: nat)
    requires n < WORD64
    ensures n % WORD64 == n
  {}

  /** A meta box without version and flags, as Android writes it: what stands in their place is the
      size of the first box in it. */
  lemma MetaWithoutVersion(b: seq<Byte>, d: nat, x: Memory)
    requires Of(b, 0x6d65_7461) && |b| >= 12 && 8 <= Word(b, 8) < |b| - 12 && d > 0
    ensures Holds(b, 8, false, d, x, x)
  {
    hide Value32, Sized, AtomHead, Walk, Passes, Fills, Of, Before;
    if d + 1 >= 64 {
      forall file, s | Before(file, s, b, false, d, x) ensures Walk(file, s) == None {
        MetaStep(file, s, b, d, x);
        Broken(file, s);
      }
    } else {
      forall z | Fills(b[8..], false, d + 1, x, z) ensures Passes(b, false, d, x, z) {
        MetaPasses(b, d, x, z);
      }
    }
  }

  lemma MetaStep(file: seq<Byte>, s: State, b: seq<Byte>, d: nat, x: Memory)
    requires Before(file, s, b, false, d, x) && d > 0
    requires Of(b, 0x6d65_7461) && |b| >= 12 && 8 <= Word(b, 8) < |b| - 12
    ensures s.pos < |file|
    ensures Step(file, s) == if d + 1 >= 64 then Fail
                             else Go(State(s.pos + 8, Lower(s.stack, |b|) + [Level(|b| - 8, false)], x))
  {
    hide Value32, Sized, AtomHead, Lower;
    OfSized(b, 0x6d65_7461);
    VersionRead(file, s, b, d, x);
  }

  lemma MetaPasses(b: seq<Byte>, d: nat, x: Memory, z: Memory)
    requires Of(b, 0x6d65_7461) && |b| >= 12 && 8 <= Word(b, 8) < |b| - 12 && d > 0 && d + 1 < 64
    requires Fills(b[8..], false, d + 1, x, z)
    ensures Passes(b, false, d, x, z)
  {
    hide Of, Word, Walk, Fills, Before;
    forall file, s | Before(file, s, b, false, d, x) ensures Walk(file, s) == Walk(file, After(s, |b|, z)) {
      MetaGoes(file, s, b, d, x, z);
      var next := State(s.pos + 8, Lower(s.stack, |b|) + [Level(|b| - 8, false)], x);
      FillsAt(file, next, b[8..], false, d + 1, x, z);
    }
  }

  lemma MetaGoes(file: seq<Byte>, s: State, b: seq<Byte>, d: nat, x: Memory, z: Memory)
    requires Before(file, s, b, false, d, x) && d > 0 && d + 1 < 64
    requires Of(b, 0x6d65_7461) && |b| >= 12 && 8 <= Word(b, 8) < |b| - 12
    ensures var next := State(s.pos + 8, Lower(s.stack, |b|) + [Level(|b| - 8, false)], x);
            && Walk(file, s) == Walk(file, next) && Before(file, next, b[8..], false, d + 1, x)
            && Left(next.stack) == |b[8..]| && After(next, |b[8..]|, z) == After(s, |b|, z)
  {
    hide Of, Word, Step, Walk, Lower, Popped;
    var low := Lower(s.stack, |b|);
    MetaStep(file, s, b, d, x);
    Goes(file, s, State(s.pos + 8, low + [Level(|b| - 8, false)], x));
    Rest(file, s.pos, b, 8);
    LevelUsed(low, |b| - 8, false);
  }

  // ---------------------------------------------------------------- tables in any order

  /** A box for stbl: a sample table with all its entries, or any box that says nothing of them. */
  predicate Table(b: seq<Byte>) {
    && 12 <= |b| < 0xffff_ffff && Word(b, 0) == |b|
    && var kind := Word(b, 4);
    && (kind in {0x7374_7473, 0x7374_7363, 0x7374_737a, 0x7374_636f, 0x636f_3634, 0x6374_7473} ==>
          b[8] == 0 && |b| >= 16)
    && (kind == 0x7374_7473 || kind == 0x6374_7473 || kind == 0x636f_3634 ==> 16 + 8 * Word(b, 12) <= |b|)
    && (kind == 0x7374_7363 ==> 12 + 12 * Word(b, 12) <= |b|)
    && (kind == 0x7374_737a ==> |b| >= 20 && (Word(b, 12) == 0 ==> 20 + 4 * Word(b, 16) <= |b|))
    && (kind == 0x7374_636f ==> 16 + 4 * Word(b, 12) <= |b|)
    && kind !in {0x6d64_6864, 0x6d76_6864, 0x6864_6c72, 0x6d65_7461, 0x7374_7a32, 0x7374_7364, 0x6573_6473, 0x7472_616b,
                 0x6d6f_6f76, 0x6d64_6961, 0x7472_6566, 0x6d69_6e66, 0x6469_6e66, 0x7374_626c, 0x6d70_3461,
                 0x6d70_3473, 0x6d70_3476, 0x6176_6331, 0x6876_6331, 0x7564_7461, 0x696c_7374, 0x6176_6343,
                 0x6274_7274}
  }

  function Kind(b: seq<Byte>): nat {
    if |b| >= 8 then Word(b, 4) else 0
  }

  /** What stands behind version and flags. */
  function Behind(b: seq<Byte>): seq<Byte> {
    if |b| >= 12 then b[12..] else []
  }

  /** Box i is the last one of one of these types. */
  predicate Last(boxes: seq<seq<Byte>>, i: nat, kinds: set<nat>) {
    i < |boxes| && Kind(boxes[i]) in kinds && forall j | i < j < |boxes| :: Kind(boxes[j]) !in kinds
  }

  predicate NoneOf(boxes: seq<seq<Byte>>, kinds: set<nat>) {
    forall j | 0 <= j < |boxes| :: Kind(boxes[j]) !in kinds
  }

  /** The table is that of the last box of one of these types, or else what it was. */
  ghost predicate Kept(boxes: seq<seq<Byte>>, kinds: set<nat>, before: Option<seq<Byte>>, table: Option<seq<Byte>>) {
    && (forall i: nat :: Last(boxes, i, kinds) ==> table == Some(Behind(boxes[i])))
    && (NoneOf(boxes, kinds) ==> table == before)
  }

  const OFFSETS: set<nat> := {0x7374_636f, 0x636f_3634}

  /** What the boxes make of f, whatever their order. */
  ghost predicate Gathered(boxes: seq<seq<Byte>>, f: Found, g: Found) {
    && g.dsi == f.dsi
    && Kept(boxes, {0x7374_7473}, f.stts, g.stts)
    && Kept(boxes, {0x7374_7363}, f.stsc, g.stsc)
    && Kept(boxes, {0x7374_737a}, f.stsz, g.stsz)
    && Kept(boxes, OFFSETS, f.offsets, g.offsets)
    && WideKept(boxes, f.wide, g.wide)
  }

  ghost predicate WideKept(boxes: seq<seq<Byte>>, before: bool, wide: bool) {
    && (forall i: nat :: Last(boxes, i, OFFSETS) ==> (wide <==> Kind(boxes[i]) == 0x636f_3634))
    && (NoneOf(boxes, OFFSETS) ==> wide == before)
  }

  /** One box more. */
  function WithTable(b: seq<Byte>, f: Found): Found {
    var kind, data := Kind(b), Behind(b);
    if kind == 0x7374_7473 then f.(stts := Some(data))
    else if kind == 0x7374_7363 then f.(stsc := Some(data))
    else if kind == 0x7374_737a then f.(stsz := Some(data))
    else if kind == 0x7374_636f then f.(offsets := Some(data), wide := false)
    else if kind == 0x636f_3634 then f.(offsets := Some(data), wide := true)
    else f
  }

  lemma TablePasses(b: seq<Byte>, d: nat, done: seq<Found>, f: Found)
    requires Table(b)
    ensures Passes(b, false, d, Reading(done, f), Reading(done, WithTable(b, f)))
  {
    hide Passes, Ends, Word;
    var kind := Word(b, 4);
    if kind == 0x7374_7473 {
      SttsFound(b, d, done, f);
    } else if kind == 0x7374_7363 {
      StscFound(b, d, done, f);
    } else if kind == 0x7374_737a {
      StszFound(b, d, done, f);
    } else if kind == 0x7374_636f {
      StcoFound(b, d, done, f);
    } else if kind == 0x636f_3634 {
      Co64Found(b, d, done, f);
    } else if kind == 0x6374_7473 {
      CttsPassed(b, d, Reading(done, f));
    } else {
      OfSized(b, kind);
      OthersPassed(b, d, Reading(done, f));
    }
  }

  lemma LastIs(boxes: seq<seq<Byte>>, b: seq<Byte>, i: nat, kinds: set<nat>)
    ensures Last(boxes + [b], i, kinds) <==>
              if Kind(b) in kinds then i == |boxes| else i < |boxes| && Last(boxes, i, kinds)
    ensures NoneOf(boxes + [b], kinds) <==> Kind(b) !in kinds && NoneOf(boxes, kinds)
  {
    hide Kind;
    var all := boxes + [b];
    assert all[|boxes|] == b;
    assert forall j | 0 <= j < |boxes| :: all[j] == boxes[j];
  }

  lemma KeptStep(boxes: seq<seq<Byte>>, b: seq<Byte>, kinds: set<nat>, before: Option<seq<Byte>>,
                 table: Option<seq<Byte>>)
    requires Kept(boxes, kinds, before, table)
    ensures Kept(boxes + [b], kinds, before, if Kind(b) in kinds then Some(Behind(b)) else table)
  {
    hide Kind, Behind, Last, NoneOf;
    forall i: nat ensures Last(boxes + [b], i, kinds) <==>
                          if Kind(b) in kinds then i == |boxes| else i < |boxes| && Last(boxes, i, kinds) {
      LastIs(boxes, b, i, kinds);
    }
    LastIs(boxes, b, 0, kinds);
    assert forall i: nat | i < |boxes| :: (boxes + [b])[i] == boxes[i];
  }

  lemma WideStep(boxes: seq<seq<Byte>>, b: seq<Byte>, before: bool, wide: bool)
    requires WideKept(boxes, before, wide)
    ensures WideKept(boxes + [b], before, if Kind(b) in OFFSETS then Kind(b) == 0x636f_3634 else wide)
  {
    hide Kind, Last, NoneOf;
    forall i: nat ensures Last(boxes + [b], i, OFFSETS) <==>
                          if Kind(b) in OFFSETS then i == |boxes| else i < |boxes| && Last(boxes, i, OFFSETS) {
      LastIs(boxes, b, i, OFFSETS);
    }
    LastIs(boxes, b, 0, OFFSETS);
    assert forall i: nat | i < |boxes| :: (boxes + [b])[i] == boxes[i];
  }

  lemma GatheredStep(boxes: seq<seq<Byte>>, b: seq<Byte>, f: Found, g: Found)
    requires Gathered(boxes, f, g)
    ensures Gathered(boxes + [b], f, WithTable(b, g))
  {
    hide Kind, Behind, Kept, WideKept;
    KeptStep(boxes, b, {0x7374_7473}, f.stts, g.stts);
    KeptStep(boxes, b, {0x7374_7363}, f.stsc, g.stsc);
    KeptStep(boxes, b, {0x7374_737a}, f.stsz, g.stsz);
    KeptStep(boxes, b, OFFSETS, f.offsets, g.offsets);
    WideStep(boxes, b, f.wide, g.wide);
  }

  /** Box after box. */
  function Collected(boxes: seq<seq<Byte>>, f: Found): Found {
    if boxes == [] then f else WithTable(boxes[|boxes| - 1], Collected(boxes[..|boxes| - 1], f))
  }

  /** Whatever the order of the tables, and whatever stands between them. */
  lemma {:induction false} TablesInAnyOrder(boxes: seq<seq<Byte>>, d: nat, done: seq<Found>, f: Found)
    requires forall b | b in boxes :: Table(b)
    ensures Passes(Cat(boxes), false, d, Reading(done, f), Reading(done, Collected(boxes, f)))
    ensures Gathered(boxes, f, Collected(boxes, f))
  {
    hide Passes, Cat, Table, WithTable, Gathered;
    if boxes == [] {
      CatNone();
      NonePasses(false, d, Reading(done, f));
      assert Gathered([], f, f) by { NoneGathered(f); }
    } else {
      var n := |boxes| - 1;
      var b, before := boxes[n], Collected(boxes[..n], f);
      assert b in boxes;
      TablesInAnyOrder(boxes[..n], d, done, f);
      TablePasses(b, d, done, before);
      CatSnoc(boxes[..n], b);
      assert boxes == boxes[..n] + [b];
      assert b != [] by { TableThere(b); }
      Then(Cat(boxes[..n]), b, false, d, Reading(done, f), Reading(done, before),
           Reading(done, WithTable(b, before)));
      GatheredStep(boxes[..n], b, f, before);
    }
  }

  lemma TableThere(b: seq<Byte>)
    requires Table(b)
    ensures |b| >= 12
  {}

  lemma NoneGathered(f: Found)
    ensures Gathered([], f, f)
  {}

  // ---------------------------------------------------------------- several tracks

  /** A box in moov: a track that is read as f, or one that changes nothing. */
  ghost predicate Part(b: seq<Byte>, f: Option<Found>) {
    b != [] && forall x :: Passes(b, false, 1, x, Joined(x, f))
  }

  /** The tracks found so far, and this one, if it is one. */
  function Joined(x: Memory, f: Option<Found>): Memory {
    if f.Some? then Reading(TracksOf(x), f.value) else x
  }

  function Somes(fs: seq<Option<Found>>): seq<Found> {
    if fs == [] then []
    else Somes(fs[..|fs| - 1]) + if fs[|fs| - 1].Some? then [fs[|fs| - 1].value] else []
  }

  lemma {:induction false} PartsPass(boxes: seq<seq<Byte>>, fs: seq<Option<Found>>) returns (y: Memory)
    requires |fs| == |boxes| && forall i | 0 <= i < |boxes| :: Part(boxes[i], fs[i])
    ensures Passes(Cat(boxes), false, 1, NONE, y) && TracksOf(y) == Somes(fs)
  {
    hide Passes, Cat, Part;
    if boxes == [] {
      y := NONE;
      CatNone();
      NonePasses(false, 1, NONE);
    } else {
      var n := |boxes| - 1;
      var b, f := boxes[n], fs[n];
      assert forall i | 0 <= i < n :: boxes[..n][i] == boxes[i] && fs[..n][i] == fs[i];
      var x := PartsPass(boxes[..n], fs[..n]);
      y := Joined(x, f);
      assert b != [] && Passes(b, false, 1, x, y) by { PartPasses(b, f, x); }
      CatSnoc(boxes[..n], b);
      assert boxes == boxes[..n] + [b];
      Then(Cat(boxes[..n]), b, false, 1, NONE, x, y);
    }
  }

  lemma PartPasses(b: seq<Byte>, f: Option<Found>, x: Memory)
    requires Part(b, f)
    ensures b != [] && Passes(b, false, 1, x, Joined(x, f))
  {
    hide Passes;
  }

  /** A file of boxes that are passed over, and of one moov box with any number of tracks among its
      boxes: they are found in their order. */
  lemma TracksFound(front: seq<seq<Byte>>, moov: seq<Byte>, behind: seq<seq<Byte>>, boxes: seq<seq<Byte>>,
                    fs: seq<Option<Found>>)
    requires (forall b | b in front :: Skipped(b)) && (forall b | b in behind :: Skipped(b))
    requires Of(moov, 0x6d6f_6f76) && moov[8..] == Cat(boxes) && boxes != []
    requires |fs| == |boxes| && forall i | 0 <= i < |boxes| :: Part(boxes[i], fs[i])
    ensures Opened(Cat(front) + moov + Cat(behind)) == if Somes(fs) == [] then None else Some(Somes(fs))
  {
    hide Passes, Cat, Part, Skipped, Of, Before, Step, Somes;
    var y := PartsPass(boxes, fs);
    FirstThere(boxes, fs);
    MoovOf(moov, Cat(boxes), y);
    FrontPasses(front, NONE);
    FrontPasses(behind, y);
    var file := Cat(front) + moov + Cat(behind);
    Then(Cat(front), moov, false, 0, NONE, NONE, y);
    if behind == [] {
      CatNone();
      NothingBehind(Cat(front) + moov);
    } else {
      assert Skipped(behind[0]);
      Thereafter(behind);
      Then(Cat(front) + moov, Cat(behind), false, 0, NONE, y, y);
    }
    AtStart(file);
    PassesAt(file, START, file, false, 0, NONE, y);
  }

  lemma MoovOf(moov: seq<Byte>, inner: seq<Byte>, y: Memory)
    requires Of(moov, 0x6d6f_6f76) && moov[8..] == inner && inner != [] && Passes(inner, false, 1, NONE, y)
    ensures Passes(moov, false, 0, NONE, y) && moov != []
  {
    hide Passes, Fills, Of;
    There(moov, 0x6d6f_6f76);
    WrappersEntered(moov, 0x6d6f_6f76, 0, NONE);
    PassesFills(inner, false, 1, NONE, y);
  }

  lemma Thereafter(behind: seq<seq<Byte>>)
    requires behind != [] && Skipped(behind[0])
    ensures Cat(behind) != []
  {
    hide Value32;
  }

  lemma FirstThere(boxes: seq<seq<Byte>>, fs: seq<Option<Found>>)
    requires |fs| == |boxes| > 0 && Part(boxes[0], fs[0])
    ensures Cat(boxes) != []
  {
    hide Passes;
  }

  // ---------------------------------------------------------------- an MPEG-4 Part 2 track

  /** An esds box and the descriptors in it: that of the stream, with any of its optional fields,
      holds that of the decoder, with 13 bytes of fields, and that of the transport behind it; the
      decoder's holds the configuration, and maybe more behind it. */
  datatype Esds = Esds(box: seq<Byte>, es: seq<Byte>, esn: nat, front: seq<Byte>, config: seq<Byte>, cn: nat,
                       sl: seq<Byte>, sln: nat, info: seq<Byte>, n: nat)

  predicate EsdsOf(e: Esds) {
    && Of(e.box, 0x6573_6473) && |e.box| >= 12 && e.box[8] == 0 && e.box[12..] == e.es
    && Described(e.es, 3, e.esn) && EsFront(e.front) && e.es[1 + e.esn..] == e.front + (e.config + e.sl)
    && Described(e.config, 4, e.cn) && |e.config| >= 14 + e.cn && e.config[14 + e.cn..] == e.info
    && Described(e.info, 5, e.n) && |e.info| > 1 + e.n
    && Described(e.sl, 6, e.sln)
  }

  /** The decoder configuration. */
  function DsiOf(e: Esds): seq<Byte>
    requires EsdsOf(e)
  {
    e.info[1 + e.n..]
  }

  lemma EsdsFound(e: Esds, d: nat, done: seq<Found>, f: Found)
    requires EsdsOf(e) && f.dsi == [] && d + 4 < 64
    ensures Passes(e.box, false, d, Reading(done, f), Reading(done, f.(dsi := DsiOf(e))))
  {
    hide Passes, Fills, Of, Described, EsFront;
    var x, y := Reading(done, f), Reading(done, f.(dsi := DsiOf(e)));
    InfoFound(e.info, e.n, d + 3, done, f);
    PassesFills(e.info, true, d + 3, x, y);
    ConfigEntered(e.config, e.cn, d + 2, x);
    assert Passes(e.config, true, d + 2, x, y);
    OtherTagPassed(e.sl, 6, e.sln, d + 2, y);
    Inhabited(e.sl, 6, e.sln);
    Then(e.config, e.sl, true, d + 2, x, y, y);
    Inhabited(e.es, 3, e.esn);
    EsInside(e, d + 1, x, y);
    EsdsEntered(e.box, d, x);
    PassesFills(e.es, true, d + 1, x, y);
  }

  lemma EsInside(e: Esds, d: nat, x: Memory, y: Memory)
    requires EsdsOf(e) && d + 1 < 64 && Passes(e.config + e.sl, true, d + 1, x, y)
    ensures Passes(e.es, true, d, x, y)
  {
    hide Passes, Fills, Of, Described, EsFront;
    var inner := e.config + e.sl;
    Inhabited(e.config, 4, e.cn);
    Inhabited(e.es, 3, e.esn);
    PassesFills(inner, true, d + 1, x, y);
    EsEntered(e.es, e.esn, e.front, inner, d, x);
    Halves(e.front, inner);
    Cut(e.es, 1 + e.esn, |e.front|);
  }

  /** A visual track of MPEG-4 Part 2: the boxes from trak down, each filled by those inside it. */
  datatype Visual = Visual(trak: seq<Byte>, tkhd: seq<Byte>, mdia: seq<Byte>, mdhd: seq<Byte>, hdlr: seq<Byte>,
                           minf: seq<Byte>, vmhd: seq<Byte>, stbl: seq<Byte>, stsd: seq<Byte>, entry: seq<Byte>,
                           esds: Esds, tables: seq<seq<Byte>>)

  predicate VisualOf(v: Visual) {
    && Of(v.trak, 0x7472_616b) && v.trak[8..] == v.tkhd + v.mdia
    && Of(v.tkhd, 0x746b_6864)
    && Of(v.mdia, 0x6d64_6961) && v.mdia[8..] == v.mdhd + v.hdlr + v.minf
    && Of(v.mdhd, 0x6d64_6864) && |v.mdhd| >= 42 && v.mdhd[8] <= 1
    && Of(v.hdlr, 0x6864_6c72) && |v.hdlr| >= 20 && v.hdlr[8] == 0
    && Of(v.minf, 0x6d69_6e66) && v.minf[8..] == v.vmhd + v.stbl
    && Of(v.vmhd, 0x766d_6864)
    && Of(v.stbl, 0x7374_626c) && v.stbl[8..] == v.stsd + Cat(v.tables)
    && Of(v.stsd, 0x7374_7364) && |v.stsd| >= 16 && v.stsd[8] == 0 && v.stsd[16..] == v.entry
    && Of(v.entry, 0x6d70_3476) && |v.entry| >= 86 && v.entry[86..] == v.esds.box
    && EsdsOf(v.esds) && forall b | b in v.tables :: Table(b)
  }

  lemma OtherOf(b: seq<Byte>, kind: nat, d: nat, x: Memory)
    requires Of(b, kind) && kind in {0x746b_6864, 0x766d_6864}
    ensures Passes(b, false, d, x, x) && b != []
  {
    hide Passes;
    OfSized(b, kind);
    OthersPassed(b, d, x);
  }

  lemma There(b: seq<Byte>, kind: nat)
    requires Of(b, kind)
    ensures |b| >= 8
  {}

  lemma StsdFound(v: Visual, done: seq<Found>, f: Found)
    requires VisualOf(v) && f.dsi == []
    ensures Passes(v.stsd, false, 5, Reading(done, f), Reading(done, f.(dsi := DsiOf(v.esds))))
  {
    hide Passes, Fills, Of, EsdsOf, Word, Table;
    var x, y := Reading(done, f), Reading(done, f.(dsi := DsiOf(v.esds)));
    EsdsFound(v.esds, 7, done, f);
    assert |v.esds.box| >= 12 by { EsdsThere(v.esds); }
    PassesFills(v.esds.box, false, 7, x, y);
    EntriesEntered(v.entry, 0x6d70_3476, 78, 6, x);
    assert Passes(v.entry, false, 6, x, y);
    PassesFills(v.entry, false, 6, x, y);
    StsdEntered(v.stsd, 5, x);
  }

  lemma EsdsThere(e: Esds)
    requires EsdsOf(e)
    ensures |e.box| >= 12
  {}

  /** What is found of such a track. */
  function FoundIn(v: Visual): Found
    requires VisualOf(v)
  {
    Collected(v.tables, Found(DsiOf(v.esds), None, None, None, None, false))
  }

  lemma StblFound(v: Visual, done: seq<Found>)
    requires VisualOf(v)
    ensures Passes(v.stbl, false, 4, Reading(done, NOTHING), Reading(done, FoundIn(v)))
  {
    hide Passes, Fills, Of, EsdsOf, Word, Table, Gathered, Cat, Collected;
    var f := NOTHING.(dsi := DsiOf(v.esds));
    var x, y, z := Reading(done, NOTHING), Reading(done, f), Reading(done, FoundIn(v));
    StsdFound(v, done, NOTHING);
    TablesInAnyOrder(v.tables, 5, done, f);
    WrappersEntered(v.stbl, 0x7374_626c, 4, x);
    There(v.stbl, 0x7374_626c);
    There(v.stsd, 0x7374_7364);
    if v.tables == [] {
      CatNone();
      NothingBehind(v.stsd);
      NoTables(f);
    } else {
      TablesThere(v.tables);
      Then(v.stsd, Cat(v.tables), false, 5, x, y, z);
    }
    PassesFills(v.stsd + Cat(v.tables), false, 5, x, z);
  }

  lemma NoTables(f: Found)
    ensures Collected([], f) == f
  {}

  lemma TablesThere(boxes: seq<seq<Byte>>)
    requires boxes != [] && forall b | b in boxes :: Table(b)
    ensures Cat(boxes) != []
  {
    hide Word;
    assert Table(boxes[0]);
  }

  lemma MdiaFound(v: Visual, done: seq<Found>)
    requires VisualOf(v)
    ensures Passes(v.mdia, false, 2, Reading(done, NOTHING), Reading(done, FoundIn(v)))
  {
    hide Passes, Fills, Of, EsdsOf, Word, Table, Cat, FoundIn;
    var x, z := Reading(done, NOTHING), Reading(done, FoundIn(v));
    StblFound(v, done);
    OtherOf(v.vmhd, 0x766d_6864, 4, x);
    There(v.stbl, 0x7374_626c);
    Then(v.vmhd, v.stbl, false, 4, x, x, z);
    There(v.minf, 0x6d69_6e66);
    WrappersEntered(v.minf, 0x6d69_6e66, 3, x);
    PassesFills(v.vmhd + v.stbl, false, 4, x, z);
    MdhdPassed(v.mdhd, 3, x);
    HdlrPassed(v.hdlr, 3, x);
    Then(v.mdhd, v.hdlr, false, 3, x, x, x);
    Then(v.mdhd + v.hdlr, v.minf, false, 3, x, x, z);
    There(v.mdia, 0x6d64_6961);
    WrappersEntered(v.mdia, 0x6d64_6961, 2, x);
    PassesFills(v.mdhd + v.hdlr + v.minf, false, 3, x, z);
  }

  lemma TrakFound(v: Visual, x: Memory)
    requires VisualOf(v)
    ensures Passes(v.trak, false, 1, x, Joined(x, Some(FoundIn(v))))
  {
    hide Passes, Fills, Of, EsdsOf, Word, Table, Cat, FoundIn;
    var y, z := Reading(TracksOf(x), NOTHING), Reading(TracksOf(x), FoundIn(v));
    MdiaFound(v, TracksOf(x));
    OtherOf(v.tkhd, 0x746b_6864, 2, y);
    There(v.mdia, 0x6d64_6961);
    There(v.trak, 0x7472_616b);
    Then(v.tkhd, v.mdia, false, 2, y, y, z);
    TrakEntered(v.trak, 1, x);
    PassesFills(v.tkhd + v.mdia, false, 2, y, z);
  }

  /** Wherever such a track stands in moov, it is found with its decoder configuration and with the
      last of its tables of each type. */
  lemma VisualFound(v: Visual)
    requires VisualOf(v)
    ensures Part(v.trak, Some(FoundIn(v)))
    ensures Gathered(v.tables, Found(DsiOf(v.esds), None, None, None, None, false), FoundIn(v))
  {
    hide Passes, Of, EsdsOf, Word, Table, Cat, Gathered, Collected, Joined;
    There(v.trak, 0x7472_616b);
    var f := Some(FoundIn(v));
    forall x ensures Passes(v.trak, false, 1, x, Joined(x, f)) {
      TrakFound(v, x);
    }
    TablesInAnyOrder(v.tables, 5, [], NOTHING.(dsi := DsiOf(v.esds)));
  }

  /** A whole file: boxes that are passed over, and a moov box with an mvhd of either version and
      any number of such tracks. All of them are found, in their order. */
  lemma VisualFile(front: seq<seq<Byte>>, moov: seq<Byte>, behind: seq<seq<Byte>>, mvhd: seq<Byte>,
                   tracks: seq<Visual>)
    requires (forall b | b in front :: Skipped(b)) && (forall b | b in behind :: Skipped(b))
    requires Of(mvhd, 0x6d76_6864) && |mvhd| >= 40 && mvhd[8] <= 1 && tracks != []
    requires forall v | v in tracks :: VisualOf(v)
    requires Of(moov, 0x6d6f_6f76) && moov[8..] == Cat([mvhd] + Traks(tracks))
    ensures var r := Opened(Cat(front) + moov + Cat(behind));
            && r.Some? && |r.value| == |tracks|
            && forall i | 0 <= i < |tracks| :: r.value[i] == FoundIn(tracks[i])
  {
    hide Passes, Of, Word, Cat, VisualOf, Skipped, Part, Opened, FoundIn, Somes, Gathered;
    var fs := [None] + Somed(tracks);
    var boxes := [mvhd] + Traks(tracks);
    assert Part(mvhd, None) by { MvhdPart(mvhd); }
    forall i | 0 <= i < |boxes| ensures Part(boxes[i], fs[i]) {
      if i > 0 {
        assert tracks[i - 1] in tracks;
        VisualFound(tracks[i - 1]);
      }
    }
    TracksFound(front, moov, behind, boxes, fs);
    SomedIs(tracks);
  }

  function Traks(tracks: seq<Visual>): (r: seq<seq<Byte>>)
    ensures |r| == |tracks| && forall i | 0 <= i < |tracks| :: r[i] == tracks[i].trak
  {
    seq(|tracks|, i requires 0 <= i < |tracks| => tracks[i].trak)
  }

  function Somed(tracks: seq<Visual>): (r: seq<Option<Found>>)
    requires forall v | v in tracks :: VisualOf(v)
    ensures |r| == |tracks| && forall i | 0 <= i < |tracks| :: r[i] == Some(FoundIn(tracks[i]))
  {
    hide VisualOf, FoundIn;
    seq(|tracks|, i requires 0 <= i < |tracks| => Some(FoundIn(tracks[i])))
  }

  lemma MvhdPart(mvhd: seq<Byte>)
    requires Of(mvhd, 0x6d76_6864) && |mvhd| >= 40 && mvhd[8] <= 1
    ensures Part(mvhd, None)
  {
    hide Passes, Of, Word;
    forall x ensures Passes(mvhd, false, 1, x, Joined(x, None)) {
      MvhdPassed(mvhd, 1, x);
    }
  }

  lemma {:induction false} SomedIs(tracks: seq<Visual>)
    requires forall v | v in tracks :: VisualOf(v)
    ensures var r := Somes([None] + Somed(tracks));
            |r| == |tracks| && forall i | 0 <= i < |tracks| :: r[i] == FoundIn(tracks[i])
  {
    hide VisualOf, FoundIn;
    var all := [None] + Somed(tracks);
    var n := |all| - 1;
    if tracks == [] {
      assert all == [None] && all[..0] == [];
    } else {
      SomedIs(tracks[..n - 1]);
      assert all[..n] == [None] + Somed(tracks[..n - 1]);
    }
  }
}
