/** How the demuxer's pass goes over one box: it leaves it behind with all that is in it, or it
    is stranded inside. */
module Mp4Walk {
  import opened Seqs
  import opened Wrappers
  import opened Bits
  import opened Mp4Bytes
  import opened Mp4Boxes
  import opened Mp4Demux

  /** The pass stands in front of b, d levels deep, with x found so far. */
  ghost predicate Before(file: seq<Byte>, s: State, b: seq<Byte>, od: bool, d: nat, x: Memory) {
    && s.mem == x && |s.stack| == d && InDescriptors(s.stack) == od
    && s.pos + |b| <= |file| && file[s.pos..s.pos + |b|] == b
    && (s.stack != [] ==> Left(s.stack) >= |b| && Left(s.stack) > 0)
  }

  function Left(stack: seq<Level>): nat
    requires stack != []
  {
    stack[|stack| - 1].bytes
  }

  /** The pass behind n more bytes of the innermost box. */
  function After(s: State, n: nat, y: Memory): State
  {
    State(s.pos + n, Popped(Lower(s.stack, n)), y)
  }

  /** Wherever it stands, d levels deep, b is left behind, and x has become y. */
  ghost predicate Passes(b: seq<Byte>, od: bool, d: nat, x: Memory, y: Memory) {
    forall file, s :: Before(file, s, b, od, d, x) ==> Walk(file, s) == Walk(file, After(s, |b|, y))
  }

  /** The same for a b that fills the box around it. */
  ghost predicate Fills(b: seq<Byte>, od: bool, d: nat, x: Memory, y: Memory) {
    && (b == [] ==> x == y)
    && forall file, s :: b != [] && Before(file, s, b, od, d, x) && s.stack != [] && Left(s.stack) == |b|
                         ==> Walk(file, s) == Walk(file, After(s, |b|, y))
  }

  predicate SameTables(f: Found, g: Found) {
    f.(dsi := []) == g.(dsi := [])
  }

  /** No table is found any more. */
  predicate Stuck(r: Option<Memory>, y: Memory) {
    r.Some? ==>
      && r.value.done == y.done && r.value.current.Some? && y.current.Some?
      && SameTables(r.value.current.value, y.current.value)
  }

  /** File positions are signed 64-bit numbers. */
  const FILE_LIMIT := 0x8000_0000_0000_0000

  /** Wherever b stands, nothing is found any more once the pass has come to it, but for y. */
  ghost predicate Strands(b: seq<Byte>, od: bool, d: nat, x: Memory, y: Memory) {
    forall file, s :: |file| < FILE_LIMIT && Before(file, s, b, od, d, x) ==> Stuck(Walk(file, s), y)
  }

  lemma PassesAt(file: seq<Byte>, s: State, b: seq<Byte>, od: bool, d: nat, x: Memory, y: Memory)
    requires Passes(b, od, d, x, y) && Before(file, s, b, od, d, x)
    ensures Walk(file, s) == Walk(file, After(s, |b|, y))
  {}

  lemma FillsAt(file: seq<Byte>, s: State, b: seq<Byte>, od: bool, d: nat, x: Memory, y: Memory)
    requires Fills(b, od, d, x, y) && b != [] && Before(file, s, b, od, d, x) && s.stack != [] && Left(s.stack) == |b|
    ensures Walk(file, s) == Walk(file, After(s, |b|, y))
  {}

  lemma StrandsAt(file: seq<Byte>, s: State, b: seq<Byte>, od: bool, d: nat, x: Memory, y: Memory)
    requires Strands(b, od, d, x, y) && |file| < FILE_LIMIT && Before(file, s, b, od, d, x)
    ensures Stuck(Walk(file, s), y)
  {}

  lemma PassesFills(b: seq<Byte>, od: bool, d: nat, x: Memory, y: Memory)
    requires Passes(b, od, d, x, y) && b != []
    ensures Fills(b, od, d, x, y)
  {}

  // ---------------------------------------------------------------- one behind the other

  lemma Split(file: seq<Byte>, s: State, a: seq<Byte>, b: seq<Byte>, od: bool, d: nat, x: Memory, y: Memory, z: Memory)
    requires Before(file, s, a + b, od, d, x) && b != []
    ensures Before(file, s, a, od, d, x) && Before(file, After(s, |a|, y), b, od, d, y)
    ensures After(After(s, |a|, y), |b|, z) == After(s, |a + b|, z)
    ensures s.stack != [] ==> After(s, |a|, y).stack != [] && Left(After(s, |a|, y).stack) == Left(s.stack) - |a|
  {
    var p, n := s.pos, |a + b|;
    Inner(file, p, p + n, 0, |a|);
    Inner(file, p, p + n, |a|, n);
    Halves(a, b);
    assert (a + b)[|a|..n] == b;
    if s.stack != [] {
      assert Left(Lower(s.stack, |a|)) == Left(s.stack) - |a|;
      assert Popped(Lower(s.stack, |a|)) == Lower(s.stack, |a|);
      assert Lower(Lower(s.stack, |a|), |b|) == Lower(s.stack, n);
    }
  }

  lemma Then(a: seq<Byte>, b: seq<Byte>, od: bool, d: nat, x: Memory, y: Memory, z: Memory)
    requires Passes(a, od, d, x, y) && Passes(b, od, d, y, z) && b != []
    ensures Passes(a + b, od, d, x, z)
  {
    hide Before, Walk;
    forall file, s | Before(file, s, a + b, od, d, x)
      ensures Walk(file, s) == Walk(file, After(s, |a + b|, z)) {
      Split(file, s, a, b, od, d, x, y, z);
      PassesAt(file, s, a, od, d, x, y);
      PassesAt(file, After(s, |a|, y), b, od, d, y, z);
    }
  }

  lemma ThenFills(a: seq<Byte>, b: seq<Byte>, od: bool, d: nat, x: Memory, y: Memory, z: Memory)
    requires Passes(a, od, d, x, y) && Fills(b, od, d, y, z) && b != []
    ensures Fills(a + b, od, d, x, z)
  {
    hide Before, Walk;
    forall file, s | Before(file, s, a + b, od, d, x) && s.stack != [] && Left(s.stack) == |a + b|
      ensures Walk(file, s) == Walk(file, After(s, |a + b|, z)) {
      Split(file, s, a, b, od, d, x, y, z);
      PassesAt(file, s, a, od, d, x, y);
      FillsAt(file, After(s, |a|, y), b, od, d, y, z);
    }
  }

  lemma ThenStrands(a: seq<Byte>, b: seq<Byte>, od: bool, d: nat, x: Memory, y: Memory, z: Memory)
    requires Passes(a, od, d, x, y) && Strands(b, od, d, y, z) && b != []
    ensures Strands(a + b, od, d, x, z)
  {
    hide Before, Walk, Stuck;
    forall file, s | |file| < FILE_LIMIT && Before(file, s, a + b, od, d, x)
      ensures Stuck(Walk(file, s), z) {
      Split(file, s, a, b, od, d, x, y, z);
      PassesAt(file, s, a, od, d, x, y);
      StrandsAt(file, After(s, |a|, y), b, od, d, y, z);
    }
  }

  /** What follows does not matter. */
  lemma StrandsBefore(a: seq<Byte>, b: seq<Byte>, od: bool, d: nat, x: Memory, y: Memory)
    requires Strands(a, od, d, x, y)
    ensures Strands(a + b, od, d, x, y)
  {
    hide Walk, Stuck;
    var both: seq<Byte> := a + b;
    forall file: seq<Byte>, s: State | |file| < FILE_LIMIT && Before(file, s, both, od, d, x)
      ensures Stuck(Walk(file, s), y) {
      Inner(file, s.pos, s.pos + |both|, 0, |a|);
      Halves(a, b);
      StrandsAt(file, s, a, od, d, x, y);
    }
  }

  // ---------------------------------------------------------------- one turn of the loop

  /** A header as it is read in front of b, with b's own length as its size. */
  ghost predicate Headed(file: seq<Byte>, s: State, b: seq<Byte>, h: Head) {
    && s.pos <= |file| && HeadAt(file, s).Head? && CheckedHead(file, s, HeadAt(file, s)) == Ready(h)
    && h.Head? && h.size == |b| > 0 && 0 < h.bytes && h.bytes + h.payload == |b|
  }

  /** The payload has what is read of it, and there is a track where one is needed. */
  predicate Readable(h: Head, data: seq<Byte>, x: Memory)
    requires h.Head?
  {
    && |data| == h.payload && (TrackPart(h.name) ==> x.current.Some?)
    && Need(h.name, data, h.payload, h.version, x) <= |data|
  }

  function Remembered(h: Head, data: seq<Byte>, x: Memory): Memory
    requires h.Head? && Readable(h, data, x)
  {
    Store(h.name, data, h.payload, h.version, x)
  }

  function Front(h: Head, data: seq<Byte>, x: Memory): (n: nat)
    requires h.Head? && Readable(h, data, x)
    ensures n <= |data|
  {
    Used(h.name, data, h.payload, h.version, x)
  }

  /** The turn takes b as a box with header h. */
  lemma Placed(file: seq<Byte>, s: State, b: seq<Byte>, h: Head, od: bool, d: nat, x: Memory)
    requires Before(file, s, b, od, d, x) && Headed(file, s, b, h)
    ensures s.pos < |file| && s.pos + h.bytes <= |file|
    ensures Step(file, s) == Enter(file, s.pos + h.bytes, Lower(s.stack, |b|), h, x)
    ensures Available(file, s.pos + h.bytes, h.payload) == b[h.bytes..]
  {
    hide HeadAt, CheckedHead, Enter, Lower;
    Rest(file, s.pos, b, h.bytes);
  }

  lemma Rest(file: seq<Byte>, p: nat, b: seq<Byte>, n: nat)
    requires p + |b| <= |file| && file[p..p + |b|] == b && n <= |b|
    ensures file[p + n..p + |b|] == b[n..]
  {
    Inner(file, p, p + |b|, n, |b|);
    assert b[n..|b|] == b[n..];
  }

  lemma Goes(file: seq<Byte>, s: State, next: State)
    requires s.pos < |file| && Step(file, s) == Go(next)
    ensures Walk(file, s) == Walk(file, next)
  {
    hide Step;
  }

  /** A box that is not entered is passed. */
  lemma StepOver(file: seq<Byte>, s: State, b: seq<Byte>, h: Head, od: bool, d: nat, x: Memory)
    requires Before(file, s, b, od, d, x) && Headed(file, s, b, h) && Envelope(h.name) == None
    requires Readable(h, b[h.bytes..], x)
    ensures Walk(file, s) == Walk(file, After(s, |b|, Remembered(h, b[h.bytes..], x)))
  {
    hide Step, Walk, Need, Used, Store, TrackPart, Before, Lower, Popped, Envelope, Available;
    Placed(file, s, b, h, od, d, x);
    Goes(file, s, After(s, |b|, Remembered(h, b[h.bytes..], x)));
  }

  /** Behind the fields of a box that is entered. */
  function Into(s: State, h: Head, b: seq<Byte>, x: Memory): State
    requires h.Head? && 0 < h.bytes <= |b| && Readable(h, b[h.bytes..], x) && Envelope(h.name).Some?
  {
    var data := b[h.bytes..];
    var n := Front(h, data, x);
    State(s.pos + h.bytes + n, Popped(Lower(s.stack, |b|) + [Level(|data| - n, Envelope(h.name).value)]),
          Remembered(h, data, x))
  }

  lemma StepIn(file: seq<Byte>, s: State, b: seq<Byte>, h: Head, od: bool, d: nat, x: Memory)
    requires Before(file, s, b, od, d, x) && Headed(file, s, b, h) && Envelope(h.name).Some?
    requires Readable(h, b[h.bytes..], x) && d + 1 < DEPTH_LIMIT
    ensures Walk(file, s) == Walk(file, Into(s, h, b, x))
  {
    hide Step, Walk, Need, Used, Store, TrackPart, Lower, Popped, Envelope, Available;
    Placed(file, s, b, h, od, d, x);
    Goes(file, s, Into(s, h, b, x));
  }

  /** A level for n bytes, put on a stack and used up. */
  lemma LevelUsed(low: seq<Level>, n: nat, od: bool)
    ensures n == 0 ==> Popped(low + [Level(n, od)]) == Popped(low)
    ensures n > 0 ==>
              var top := low + [Level(n, od)];
              Popped(top) == top && Left(top) == n && Popped(Lower(top, n)) == Popped(low)
  {
    var top, used := low + [Level(n, od)], low + [Level(0, od)];
    assert used[..|low|] == low;
    assert Lower(top, n) == used;
  }

  /** What the entered box holds is in front of the pass. */
  lemma IntoBefore(file: seq<Byte>, s: State, b: seq<Byte>, h: Head, od: bool, d: nat, x: Memory, y: Memory)
    requires Before(file, s, b, od, d, x) && h.Head? && 0 < h.bytes <= |b| && Envelope(h.name).Some?
    requires Readable(h, b[h.bytes..], x)
    ensures var data := b[h.bytes..];
            var n, s' := Front(h, data, x), Into(s, h, b, x);
            if data[n..] == [] then s' == After(s, |b|, Remembered(h, data, x))
            else
              && Before(file, s', data[n..], Envelope(h.name).value, d + 1, Remembered(h, data, x))
              && s'.stack != [] && Left(s'.stack) == |data[n..]|
              && After(s', |data[n..]|, y) == After(s, |b|, y)
  {
    hide Need, Used, Store, TrackPart, Popped, Lower, Envelope, Readable, Front, Remembered;
    var data := b[h.bytes..];
    var n := Front(h, data, x);
    LevelUsed(Lower(s.stack, |b|), |data| - n, Envelope(h.name).value);
    assert data[n..] == b[h.bytes + n..];
    Rest(file, s.pos, b, h.bytes + n);
  }

  // ---------------------------------------------------------------- whole boxes

  /** Wherever b stands, its header is read as h. */
  ghost predicate Announces(b: seq<Byte>, od: bool, x: Memory, h: Head) {
    h.Head? && 0 < h.bytes <= |b| && forall file, s, d :: Before(file, s, b, od, d, x) ==> Headed(file, s, b, h)
  }

  lemma AnnouncedAt(file: seq<Byte>, s: State, b: seq<Byte>, od: bool, d: nat, x: Memory, h: Head)
    requires Announces(b, od, x, h) && Before(file, s, b, od, d, x)
    ensures Headed(file, s, b, h)
  {}

  lemma OverPasses(b: seq<Byte>, h: Head, od: bool, d: nat, x: Memory)
    requires Announces(b, od, x, h) && Envelope(h.name) == None && Readable(h, b[h.bytes..], x)
    ensures Passes(b, od, d, x, Remembered(h, b[h.bytes..], x))
  {
    hide Before, Walk, Headed, Readable, Remembered, After, Envelope;
    forall file, s | Before(file, s, b, od, d, x)
      ensures Walk(file, s) == Walk(file, After(s, |b|, Remembered(h, b[h.bytes..], x))) {
      AnnouncedAt(file, s, b, od, d, x, h);
      StepOver(file, s, b, h, od, d, x);
    }
  }

  lemma InPasses(b: seq<Byte>, h: Head, od: bool, d: nat, x: Memory, y: Memory)
    requires Announces(b, od, x, h) && Envelope(h.name).Some? && Readable(h, b[h.bytes..], x) && d + 1 < DEPTH_LIMIT
    requires var data := b[h.bytes..];
             Fills(data[Front(h, data, x)..], Envelope(h.name).value, d + 1, Remembered(h, data, x), y)
    ensures Passes(b, od, d, x, y)
  {
    hide Before, Walk, Headed, Readable, Remembered, After, Envelope, Into, Front;
    var data := b[h.bytes..];
    var inner := data[Front(h, data, x)..];
    forall file, s | Before(file, s, b, od, d, x) ensures Walk(file, s) == Walk(file, After(s, |b|, y)) {
      AnnouncedAt(file, s, b, od, d, x, h);
      StepIn(file, s, b, h, od, d, x);
      IntoBefore(file, s, b, h, od, d, x, y);
      if inner != [] {
        FillsAt(file, Into(s, h, b, x), inner, Envelope(h.name).value, d + 1, Remembered(h, data, x), y);
      }
    }
  }

  lemma InStrands(b: seq<Byte>, h: Head, od: bool, d: nat, x: Memory, y: Memory)
    requires Announces(b, od, x, h) && Envelope(h.name).Some? && Readable(h, b[h.bytes..], x) && d + 1 < DEPTH_LIMIT
    requires var data := b[h.bytes..];
             var inner := data[Front(h, data, x)..];
             inner != [] && Strands(inner, Envelope(h.name).value, d + 1, Remembered(h, data, x), y)
    ensures Strands(b, od, d, x, y)
  {
    hide Before, Walk, Headed, Readable, Remembered, After, Envelope, Into, Front, Stuck;
    var data := b[h.bytes..];
    var inner := data[Front(h, data, x)..];
    forall file, s | |file| < FILE_LIMIT && Before(file, s, b, od, d, x) ensures Stuck(Walk(file, s), y) {
      AnnouncedAt(file, s, b, od, d, x, h);
      StepIn(file, s, b, h, od, d, x);
      IntoBefore(file, s, b, h, od, d, x, y);
      StrandsAt(file, Into(s, h, b, x), inner, Envelope(h.name).value, d + 1, Remembered(h, data, x), y);
    }
  }

  /** A box whose payload is too short for what is read of it ends the pass. */
  lemma ShortStrands(b: seq<Byte>, h: Head, od: bool, d: nat, x: Memory)
    requires Announces(b, od, x, h) && h.payload == |b| - h.bytes && x.current.Some?
    requires Need(h.name, b[h.bytes..], h.payload, h.version, x) > h.payload
    ensures Strands(b, od, d, x, x)
  {
    hide Before, Walk, Headed, Need;
    forall file, s | |file| < FILE_LIMIT && Before(file, s, b, od, d, x) ensures Stuck(Walk(file, s), x) {
      AnnouncedAt(file, s, b, od, d, x, h);
      StepShort(file, s, b, h, od, d, x);
    }
  }

  lemma StepShort(file: seq<Byte>, s: State, b: seq<Byte>, h: Head, od: bool, d: nat, x: Memory)
    requires Before(file, s, b, od, d, x) && Headed(file, s, b, h) && x.current.Some?
    requires Need(h.name, b[h.bytes..], h.payload, h.version, x) > h.payload
    ensures Walk(file, s) == Some(x)
  {
    hide Step, Need, Used, Store, TrackPart, Lower, Popped, Envelope, Available;
    Placed(file, s, b, h, od, d, x);
  }

  // ---------------------------------------------------------------- headers as written

  function KindOf(b: seq<Byte>): nat
    requires |b| >= 8
  {
    Value32(TypeOf(b))
  }

  /** The header of a box, of a full box, of a box with a 64-bit size, and of a descriptor with
      a length of one byte. */
  function PlainHead(b: seq<Byte>): Head
    requires |b| >= 8
  {
    Head(Atom(KindOf(b)), |b|, |b| - 8, 8, 8, 0)
  }

  function FullHeader(b: seq<Byte>): Head
    requires |b| >= 12
  {
    Head(Atom(KindOf(b)), |b|, |b| - 12, 12, 12, 0)
  }

  function WideHead(b: seq<Byte>): Head
    requires |b| >= 16
  {
    Head(Atom(KindOf(b)), |b|, |b| - 16, 16, 8, 0)
  }

  function ShortTag(b: seq<Byte>): Head
    requires |b| >= 2
  {
    Head(Tag(b[0]), |b|, |b| - 2, 2, 2, 0)
  }

  /** A slice of what is in front of the pass. */
  lemma Ahead(file: seq<Byte>, p: nat, b: seq<Byte>, i: nat, j: nat)
    requires p + |b| <= |file| && file[p..p + |b|] == b && i <= j <= |b|
    ensures file[p + i..p + j] == b[i..j]
  {
    Inner(file, p, p + |b|, i, j);
  }

  lemma PlainAnnounced(b: seq<Byte>, x: Memory)
    requires Sized(b) && |b| < WORD - 1 && MaxVersion(KindOf(b)) == None
    ensures Announces(b, false, x, PlainHead(b))
  {
    hide Value32, MaxVersion, FullHead;
    forall file, s, d | Before(file, s, b, false, d, x) ensures Headed(file, s, b, PlainHead(b)) {
      SizedHead(file, s.pos, b);
    }
  }

  lemma SizedHead(file: seq<Byte>, p: nat, b: seq<Byte>)
    requires p + |b| <= |file| && file[p..p + |b|] == b && Sized(b) && |b| < WORD - 1
    ensures AtomHead(file, p) == PlainHead(b)
  {
    hide Value32;
    Ahead(file, p, b, 0, 4);
    Ahead(file, p, b, 4, 8);
  }

  lemma FullAnnounced(b: seq<Byte>, x: Memory)
    requires Sized(b) && 12 <= |b| < WORD - 1 && MaxVersion(KindOf(b)).Some? && Word(b, 8) == 0
    requires TrackTable(KindOf(b)) ==> x.current.Some?
    ensures Announces(b, false, x, FullHeader(b))
  {
    hide Value32, MaxVersion, TrackTable, Sized, AtomHead;
    forall file, s, d | Before(file, s, b, false, d, x) ensures Headed(file, s, b, FullHeader(b)) {
      SizedHead(file, s.pos, b);
      Ahead(file, s.pos, b, 8, 12);
    }
  }

  lemma WideAnnounced(b: seq<Byte>, x: Memory)
    requires SizedWide(b) && MaxVersion(KindOf(b)) == None
    ensures Announces(b, false, x, WideHead(b))
  {
    hide Value32, MaxVersion, FullHead;
    forall file, s, d | Before(file, s, b, false, d, x) ensures Headed(file, s, b, WideHead(b)) {
      Ahead(file, s.pos, b, 0, 4);
      Ahead(file, s.pos, b, 4, 8);
      Ahead(file, s.pos, b, 8, 12);
      Ahead(file, s.pos, b, 12, 16);
    }
  }

  lemma TagAnnounced(b: seq<Byte>, x: Memory)
    requires 2 <= |b| < 130 && b[1] as int == |b| - 2
    ensures Announces(b, true, x, ShortTag(b))
  {
    hide FullHead, TagHead;
    forall file, s, d | Before(file, s, b, true, d, x) ensures Headed(file, s, b, ShortTag(b)) {
      ShortTagRead(file, s.pos, b);
    }
  }

  lemma ShortTagRead(file: seq<Byte>, p: nat, b: seq<Byte>)
    requires p + |b| <= |file| && file[p..p + |b|] == b && 2 <= |b| < 130 && b[1] as int == |b| - 2
    ensures TagHead(file, p) == ShortTag(b)
  {
    hide TagLength;
    assert file[p] == b[0] && file[p + 1] == b[1];
    LastByte(file, p + 1);
  }

  lemma LastByte(file: seq<Byte>, p: nat)
    requires p < |file| && file[p] < 128
    ensures TagLength(file, p, 0) == Some(LengthField(file[p], p + 1))
  {}
}
